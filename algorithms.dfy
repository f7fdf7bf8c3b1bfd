/** The flood fill of the Fill tool: a breadth-first traversal over the
    4-connected neighbours of a seed pixel, bounded by a per-channel colour
    threshold measured against the seed's original colour. */
module Algorithms {
  import opened Graphics

  /** Largest per-channel distance from the seed colour that still belongs
      to the filled region. */
  const Threshold := 1

  function Abs(n: int): nat {
    if n < 0 then -n else n
  }

  /** The containment test: every channel within Threshold of the seed's. */
  predicate Inside(seedColor: Color, c: Color) {
    && Abs(seedColor.red - c.red) <= Threshold
    && Abs(seedColor.green - c.green) <= Threshold
    && Abs(seedColor.blue - c.blue) <= Threshold
    && Abs(seedColor.alpha - c.alpha) <= Threshold
  }

  predicate InBounds(w: int, h: int, p: Point) {
    0 <= p.x < w && 0 <= p.y < h
  }

  /** p and q are 4-neighbours: one step up, down, left or right. */
  predicate Adjacent(p: Point, q: Point) {
    || (p.x == q.x && (q.y == p.y - 1 || q.y == p.y + 1))
    || (p.y == q.y && (q.x == p.x - 1 || q.x == p.x + 1))
  }

  /** g is a w by h grid of colours, indexed g[x][y]. */
  ghost predicate IsGrid(g: seq<seq<Color>>, w: int, h: int) {
    |g| == w && forall x :: 0 <= x < w ==> |g[x]| == h
  }

  /** The colours of an image, as a value. */
  ghost function Grid(image: array2<Color>): (g: seq<seq<Color>>)
    reads image
    ensures IsGrid(g, image.Length0, image.Length1)
    ensures forall x, y :: 0 <= x < image.Length0 && 0 <= y < image.Length1 ==> g[x][y] == image[x, y]
  {
    seq(image.Length0, x requires 0 <= x < image.Length0 reads image =>
      seq(image.Length1, y requires 0 <= y < image.Length1 reads image => image[x, y]))
  }

  /** A walk from the seed through 4-adjacent in-bounds pixels whose original
      colours are all inside the threshold of the seed's colour. */
  ghost predicate RegionPath(g: seq<seq<Color>>, w: int, h: int, seed: Point, path: seq<Point>) {
    && IsGrid(g, w, h)
    && InBounds(w, h, seed)
    && |path| > 0
    && path[0] == seed
    && (forall i :: 0 <= i < |path| ==>
          InBounds(w, h, path[i]) && Inside(g[seed.x][seed.y], g[path[i].x][path[i].y]))
    && (forall i, j :: 0 <= i < j < |path| && j == i + 1 ==> Adjacent(path[i], path[j]))
  }

  /** p lies in the 4-connected in-threshold component of the seed. */
  ghost predicate InRegion(g: seq<seq<Color>>, w: int, h: int, seed: Point, p: Point) {
    exists path :: RegionPath(g, w, h, seed, path) && path[|path| - 1] == p
  }

  /** The seed always belongs to its own region: its colour is compared with
      itself. */
  lemma SeedInRegion(g: seq<seq<Color>>, w: int, h: int, seed: Point)
    requires IsGrid(g, w, h) && InBounds(w, h, seed)
    ensures InRegion(g, w, h, seed, seed)
  {
    assert RegionPath(g, w, h, seed, [seed]);
  }

  /** An in-threshold neighbour of a region pixel is in the region. */
  lemma ExtendRegion(g: seq<seq<Color>>, w: int, h: int, seed: Point, p: Point, q: Point)
    requires InRegion(g, w, h, seed, p)
    requires InBounds(w, h, q) && Adjacent(p, q)
    requires Inside(g[seed.x][seed.y], g[q.x][q.y])
    ensures InRegion(g, w, h, seed, q)
  {
    var path :| RegionPath(g, w, h, seed, path) && path[|path| - 1] == p;
    var longer := path + [q];
    assert longer[|longer| - 1] == q;
    forall i, j | 0 <= i < j < |longer| && j == i + 1 ensures Adjacent(longer[i], longer[j]) {
      if j < |path| {
        assert longer[i] == path[i] && longer[j] == path[j];
      } else {
        assert longer[i] == p;
      }
    }
    assert RegionPath(g, w, h, seed, longer);
  }

  /** Every pixel of the region is inside the threshold of the seed colour. */
  lemma RegionIsInside(g: seq<seq<Color>>, w: int, h: int, seed: Point, p: Point)
    requires InRegion(g, w, h, seed, p)
    ensures InBounds(w, h, p) && Inside(g[seed.x][seed.y], g[p.x][p.y])
  {
    var path :| RegionPath(g, w, h, seed, path) && path[|path| - 1] == p;
    assert InBounds(w, h, path[|path| - 1]);
  }

  /** A set of filled pixels that holds the seed, whose every in-bounds
      neighbour has been seen, and that holds every seen in-threshold pixel,
      contains the whole region. */
  lemma {:induction false} ClosedSetCoversRegion(
    g: seq<seq<Color>>, w: int, h: int, seed: Point,
    filled: set<Point>, seen: set<Point>, path: seq<Point>)
    requires RegionPath(g, w, h, seed, path)
    requires seed in filled
    requires forall p, q :: p in filled && InBounds(w, h, q) && Adjacent(p, q) ==> q in seen
    requires forall p :: p in seen && InBounds(w, h, p) && Inside(g[seed.x][seed.y], g[p.x][p.y]) ==> p in filled
    ensures path[|path| - 1] in filled
  {
    if |path| > 1 {
      var prefix := path[..|path| - 1];
      assert RegionPath(g, w, h, seed, prefix) by {
        forall i, j | 0 <= i < j < |prefix| && j == i + 1 ensures Adjacent(prefix[i], prefix[j]) {
          assert prefix[i] == path[i] && prefix[j] == path[j];
        }
      }
      ClosedSetCoversRegion(g, w, h, seed, filled, seen, prefix);
      var last := |path| - 1;
      assert prefix[last - 1] == path[last - 1];
      assert Adjacent(path[last - 1], path[last]);
      assert InBounds(w, h, path[last]);
    }
  }

  /** q came from the seed or from a neighbour already in the region. */
  ghost predicate QueuedFrom(g: seq<seq<Color>>, w: int, h: int, seed: Point, q: Point) {
    q == seed || exists p :: Adjacent(p, q) && InRegion(g, w, h, seed, p)
  }

  /** The queue after the traversal has filled p: the in-bounds neighbours
      are pushed left, right, up, down, each only when inside the image. */
  function PushNeighbours(queue: seq<Point>, w: int, h: int, p: Point): (r: seq<Point>)
    requires InBounds(w, h, p)
    ensures forall q :: q in r ==> q in queue || (InBounds(w, h, q) && Adjacent(p, q))
    ensures forall q :: q in queue ==> q in r
    ensures forall q :: InBounds(w, h, q) && Adjacent(p, q) ==> q in r
    ensures |queue| <= |r| && r[..|queue|] == queue
  {
    var q1 := if p.x > 0 then queue + [Point(p.x - 1, p.y)] else queue;
    var q2 := if p.x < w - 1 then q1 + [Point(p.x + 1, p.y)] else q1;
    var q3 := if p.y > 0 then q2 + [Point(p.x, p.y - 1)] else q2;
    if p.y < h - 1 then q3 + [Point(p.x, p.y + 1)] else q3
  }

  /** The traversal's invariant, over the set of visited pixels, the set of
      filled pixels and the queue: what is filled is exactly what was visited
      and found inside the threshold; it lies in the seed's region; every
      queued pixel is in bounds and was reached from the region; and every
      neighbour of a filled pixel has been visited or is still queued. */
  ghost predicate Frontier(g: seq<seq<Color>>, w: int, h: int, seed: Point,
                           seen: set<Point>, filled: set<Point>, queue: seq<Point>)
  {
    && IsGrid(g, w, h)
    && InBounds(w, h, seed)
    && (forall p :: p in seen ==> InBounds(w, h, p))
    && filled <= seen
    && (forall p :: p in seen ==> (p in filled <==> Inside(g[seed.x][seed.y], g[p.x][p.y])))
    && (forall p :: p in filled ==> InRegion(g, w, h, seed, p))
    && (forall q :: q in queue ==> InBounds(w, h, q) && QueuedFrom(g, w, h, seed, q))
    && (forall p, q :: p in filled && InBounds(w, h, q) && Adjacent(p, q) ==> q in seen || q in queue)
    && (seed in seen || seed in queue)
  }

  lemma InTail(s: seq<Point>, x: Point)
    requires x in s && x != s[0]
    ensures x in s[1..]
  {
    var i :| 0 <= i < |s| && s[i] == x;
    assert s[1..][i - 1] == x;
  }

  lemma FrontierInit(g: seq<seq<Color>>, w: int, h: int, seed: Point)
    requires IsGrid(g, w, h) && InBounds(w, h, seed)
    ensures Frontier(g, w, h, seed, {}, {}, [seed])
  {
  }

  /** Popping a pixel that was already visited keeps the invariant. */
  lemma FrontierSkip(g: seq<seq<Color>>, w: int, h: int, seed: Point,
                     seen: set<Point>, filled: set<Point>, queue: seq<Point>)
    requires Frontier(g, w, h, seed, seen, filled, queue)
    requires queue != [] && queue[0] in seen
    ensures Frontier(g, w, h, seed, seen, filled, queue[1..])
  {
    forall p, q | p in filled && InBounds(w, h, q) && Adjacent(p, q)
      ensures q in seen || q in queue[1..]
    {
      if q !in seen {
        InTail(queue, q);
      }
    }
    if seed !in seen {
      InTail(queue, seed);
    }
  }

  /** What visiting queue[0] preserves whatever its colour. */
  lemma FrontierPop(g: seq<seq<Color>>, w: int, h: int, seed: Point,
                    seen: set<Point>, filled: set<Point>, queue: seq<Point>)
    requires Frontier(g, w, h, seed, seen, filled, queue)
    requires queue != [] && queue[0] !in seen
    ensures forall p, q :: p in filled && InBounds(w, h, q) && Adjacent(p, q) ==>
      q in seen + {queue[0]} || q in queue[1..]
    ensures seed in seen + {queue[0]} || seed in queue[1..]
  {
    forall p, q | p in filled && InBounds(w, h, q) && Adjacent(p, q)
      ensures q in seen + {queue[0]} || q in queue[1..]
    {
      if q !in seen + {queue[0]} {
        InTail(queue, q);
      }
    }
    if seed !in seen + {queue[0]} {
      InTail(queue, seed);
    }
  }

  /** Popping an unvisited pixel outside the threshold marks it visited. */
  lemma FrontierBoundary(g: seq<seq<Color>>, w: int, h: int, seed: Point,
                         seen: set<Point>, filled: set<Point>, queue: seq<Point>)
    requires Frontier(g, w, h, seed, seen, filled, queue)
    requires queue != [] && queue[0] !in seen && InBounds(w, h, queue[0])
    requires !Inside(g[seed.x][seed.y], g[queue[0].x][queue[0].y])
    ensures Frontier(g, w, h, seed, seen + {queue[0]}, filled, queue[1..])
  {
    FrontierPop(g, w, h, seed, seen, filled, queue);
  }

  /** The pixel popped by a fill step is in the seed's region. */
  lemma PoppedInRegion(g: seq<seq<Color>>, w: int, h: int, seed: Point,
                       seen: set<Point>, filled: set<Point>, queue: seq<Point>)
    requires Frontier(g, w, h, seed, seen, filled, queue)
    requires queue != [] && InBounds(w, h, queue[0])
    requires Inside(g[seed.x][seed.y], g[queue[0].x][queue[0].y])
    ensures InRegion(g, w, h, seed, queue[0])
  {
    var cur := queue[0];
    if cur == seed {
      SeedInRegion(g, w, h, seed);
    } else {
      assert QueuedFrom(g, w, h, seed, cur);
      var p :| Adjacent(p, cur) && InRegion(g, w, h, seed, p);
      ExtendRegion(g, w, h, seed, p, cur);
    }
  }

  /** Popping an unvisited pixel inside the threshold fills it and enqueues
      its in-bounds neighbours. */
  lemma FrontierFill(g: seq<seq<Color>>, w: int, h: int, seed: Point,
                     seen: set<Point>, filled: set<Point>, queue: seq<Point>)
    requires Frontier(g, w, h, seed, seen, filled, queue)
    requires queue != [] && queue[0] !in seen && InBounds(w, h, queue[0])
    requires Inside(g[seed.x][seed.y], g[queue[0].x][queue[0].y])
    ensures Frontier(g, w, h, seed, seen + {queue[0]}, filled + {queue[0]},
                     PushNeighbours(queue[1..], w, h, queue[0]))
  {
    var cur := queue[0];
    PoppedInRegion(g, w, h, seed, seen, filled, queue);
    FrontierPop(g, w, h, seed, seen, filled, queue);
    var next := PushNeighbours(queue[1..], w, h, cur);
    forall q | q in next ensures InBounds(w, h, q) && QueuedFrom(g, w, h, seed, q) {
      if q !in queue[1..] {
        assert Adjacent(cur, q);
      }
    }
  }

  /** When the queue runs dry, the filled set is exactly the seed's region. */
  lemma FrontierExhausted(g: seq<seq<Color>>, w: int, h: int, seed: Point,
                          seen: set<Point>, filled: set<Point>, p: Point)
    requires Frontier(g, w, h, seed, seen, filled, [])
    requires InBounds(w, h, p)
    ensures p in filled <==> InRegion(g, w, h, seed, p)
  {
    if InRegion(g, w, h, seed, p) {
      var path :| RegionPath(g, w, h, seed, path) && path[|path| - 1] == p;
      assert seed in filled;
      ClosedSetCoversRegion(g, w, h, seed, filled, seen, path);
    }
  }

  /** The pixels of a w by h image, row by row; the traversal's measure of
      progress is the set of these it has not visited yet. */
  ghost function Cells(w: nat, h: nat): set<Point>
    decreases h
  {
    if h == 0 then {} else Cells(w, h - 1) + RowCells(w, h - 1)
  }

  ghost function RowCells(w: nat, y: int): set<Point>
    decreases w
  {
    if w == 0 then {} else RowCells(w - 1, y) + {Point(w - 1, y)}
  }

  lemma {:induction false} RowCellsContain(w: nat, y: int, p: Point)
    ensures p in RowCells(w, y) <==> 0 <= p.x < w && p.y == y
    decreases w
  {
    if w > 0 {
      RowCellsContain(w - 1, y, p);
    }
  }

  lemma {:induction false} CellsContain(w: nat, h: nat, p: Point)
    ensures p in Cells(w, h) <==> InBounds(w, h, p)
    decreases h
  {
    if h > 0 {
      CellsContain(w, h - 1, p);
      RowCellsContain(w, h - 1, p);
    }
  }

  /** Visiting a pixel not seen before shrinks the set of unseen pixels. */
  lemma UnseenShrinks(all: set<Point>, seen: set<Point>, p: Point)
    requires p in all && p !in seen
    ensures all - (seen + {p}) < all - seen
  {
    assert p in all - seen;
  }

  /** `visited` marks exactly the pixels in `seen`. */
  ghost predicate VisitedMirrors(visited: array2<bool>, w: int, h: int, seen: set<Point>)
    reads visited
  {
    visited.Length0 == w && visited.Length1 == h &&
    forall x, y :: 0 <= x < w && 0 <= y < h ==> (visited[x, y] <==> Point(x, y) in seen)
  }

  /** `image` holds `fillColor` on the pixels in `filled` and the original
      colour `g` everywhere else. */
  ghost predicate ImageMirrors(image: array2<Color>, g: seq<seq<Color>>, w: int, h: int,
                               filled: set<Point>, fillColor: Color)
    reads image
  {
    image.Length0 == w && image.Length1 == h && IsGrid(g, w, h) &&
    forall x, y :: 0 <= x < w && 0 <= y < h ==>
      image[x, y] == if Point(x, y) in filled then fillColor else g[x][y]
  }

  /** Marks pixel `p` visited. */
  method MarkVisited(visited: array2<bool>, p: Point, ghost w: int, ghost h: int, ghost seen: set<Point>)
    requires VisitedMirrors(visited, w, h, seen) && InBounds(w, h, p)
    modifies visited
    ensures VisitedMirrors(visited, w, h, seen + {p})
  {
    visited[p.x, p.y] := true;
    forall i, j | 0 <= i < w && 0 <= j < h
      ensures visited[i, j] <==> Point(i, j) in seen + {p}
    {
      if i == p.x && j == p.y {
        assert Point(i, j) == p;
      }
    }
  }

  /** Paints pixel `p` with `fillColor`. */
  method PaintPixel(image: array2<Color>, p: Point, fillColor: Color,
                    ghost g: seq<seq<Color>>, ghost w: int, ghost h: int, ghost filled: set<Point>)
    requires ImageMirrors(image, g, w, h, filled, fillColor) && InBounds(w, h, p)
    modifies image
    ensures ImageMirrors(image, g, w, h, filled + {p}, fillColor)
  {
    image[p.x, p.y] := fillColor;
    forall i, j | 0 <= i < w && 0 <= j < h
      ensures image[i, j] == if Point(i, j) in filled + {p} then fillColor else g[i][j]
    {
      if i == p.x && j == p.y {
        assert Point(i, j) == p;
      }
    }
  }

  /** One turn of the flood fill's queue loop: pops the head of the queue.
      A pixel seen before is dropped; a pixel outside the threshold is only
      marked visited; a pixel inside it is marked, painted, and its in-bounds
      neighbours are queued. The traversal invariant is kept, and either the
      popped pixel was not seen before and now is, or nothing was seen and
      the queue has shrunk. */
  method Visit(image: array2<Color>, visited: array2<bool>, fillColor: Color, startColor: Color,
               nodeQueue: seq<Point>, ghost g: seq<seq<Color>>, ghost startPos: Point,
               ghost seen: set<Point>, ghost filled: set<Point>)
    returns (queue': seq<Point>, ghost seen': set<Point>, ghost filled': set<Point>)
    requires nodeQueue != []
    requires Frontier(g, image.Length0, image.Length1, startPos, seen, filled, nodeQueue)
    requires startColor == g[startPos.x][startPos.y]
    requires VisitedMirrors(visited, image.Length0, image.Length1, seen)
    requires ImageMirrors(image, g, image.Length0, image.Length1, filled, fillColor)
    modifies image, visited
    ensures Frontier(g, image.Length0, image.Length1, startPos, seen', filled', queue')
    ensures VisitedMirrors(visited, image.Length0, image.Length1, seen')
    ensures ImageMirrors(image, g, image.Length0, image.Length1, filled', fillColor)
    ensures (seen' == seen && |queue'| < |nodeQueue|) ||
            (nodeQueue[0] !in seen && seen' == seen + {nodeQueue[0]})
  {
    var w, h := image.Length0, image.Length1;
    var currNode := nodeQueue[0];
    queue' := nodeQueue[1..];
    var x, y := currNode.x, currNode.y;
    assert currNode in nodeQueue;
    if visited[x, y] {
      FrontierSkip(g, w, h, startPos, seen, filled, nodeQueue);
      return queue', seen, filled;
    }

    MarkVisited(visited, currNode, w, h, seen);
    seen' := seen + {currNode};
    var currColor := image[x, y];
    assert currColor == g[x][y];  // an unvisited pixel still has its original colour

    if !Inside(startColor, currColor) {
      // a boundary pixel: inspected once, never expanded
      FrontierBoundary(g, w, h, startPos, seen, filled, nodeQueue);
      return queue', seen', filled;
    }

    FrontierFill(g, w, h, startPos, seen, filled, nodeQueue);
    PaintPixel(image, currNode, fillColor, g, w, h, filled);
    filled' := filled + {currNode};
    queue' := PushNeighbours(queue', w, h, currNode);
  }

  /** `processed` lists the pixels of `seen`, each exactly once. */
  ghost predicate Enumerates(processed: seq<Point>, seen: set<Point>) {
    && (forall p :: p in seen <==> p in processed)
    && (forall i, j :: 0 <= i < j < |processed| ==> processed[i] != processed[j])
  }

  /** Appending a pixel not seen before keeps the listing exact. */
  lemma EnumeratesExtend(processed: seq<Point>, seen: set<Point>, p: Point)
    requires Enumerates(processed, seen) && p !in seen
    ensures Enumerates(processed + [p], seen + {p})
  {
    forall i, j | 0 <= i < j < |processed| + 1
      ensures (processed + [p])[i] != (processed + [p])[j]
    {
      if j == |processed| {
        assert processed[i] in processed;
      }
    }
  }

  /** Floods the 4-connected in-threshold region of `startPos` with
      `fillColor`, in place. Every other pixel keeps its colour. The ghost
      result lists the pixels processed, in order: every pixel of the region
      is among them, and none is processed twice. */
  method FloodFill(image: array2<Color>, fillColor: Color, startPos: Point)
    returns (ghost processed: seq<Point>)
    requires InBounds(image.Length0, image.Length1, startPos)
    modifies image
    ensures forall x, y :: 0 <= x < image.Length0 && 0 <= y < image.Length1 ==>
      image[x, y] == if InRegion(old(Grid(image)), image.Length0, image.Length1, startPos, Point(x, y))
                     then fillColor else old(image[x, y])
    ensures forall i, j :: 0 <= i < j < |processed| ==> processed[i] != processed[j]
    ensures forall i :: 0 <= i < |processed| ==> InBounds(image.Length0, image.Length1, processed[i])
    ensures forall x, y ::
      (0 <= x < image.Length0 && 0 <= y < image.Length1 &&
       InRegion(old(Grid(image)), image.Length0, image.Length1, startPos, Point(x, y))) ==> Point(x, y) in processed
    ensures image[startPos.x, startPos.y] == fillColor
  {
    var w, h := image.Length0, image.Length1;
    ghost var g := Grid(image);
    ghost var all := Cells(w, h);
    ghost var seen: set<Point> := {};
    ghost var filled: set<Point> := {};
    processed := [];

    var visited := new bool[w, h]((x, y) => false);
    var startColor := image[startPos.x, startPos.y];
    var nodeQueue := [startPos];
    FrontierInit(g, w, h, startPos);

    while nodeQueue != []
      invariant Frontier(g, w, h, startPos, seen, filled, nodeQueue)
      invariant seen <= all
      invariant VisitedMirrors(visited, w, h, seen)
      invariant ImageMirrors(image, g, w, h, filled, fillColor)
      invariant Enumerates(processed, seen)
      decreases all - seen, |nodeQueue|
    {
      var currNode := nodeQueue[0];
      ghost var seen0 := seen;
      nodeQueue, seen, filled := Visit(image, visited, fillColor, startColor, nodeQueue, g, startPos, seen, filled);
      if seen != seen0 {
        CellsContain(w, h, currNode);
        UnseenShrinks(all, seen0, currNode);
        EnumeratesExtend(processed, seen0, currNode);
        processed := processed + [currNode];
      }
    }

    forall x, y | 0 <= x < w && 0 <= y < h
      ensures image[x, y] == if InRegion(g, w, h, startPos, Point(x, y)) then fillColor else g[x][y]
      ensures InRegion(g, w, h, startPos, Point(x, y)) ==> Point(x, y) in processed
    {
      FrontierExhausted(g, w, h, startPos, seen, filled, Point(x, y));
    }
    SeedInRegion(g, w, h, startPos);
  }
}
