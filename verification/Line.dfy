/** Integer Bresenham lines: exactly the nearest pixels, in as many steps as the longer span. */
module Line {
  import opened Arith
  import opened Geometry

  // ---- the pen ----

  /** Pixels moved along each axis, and the running error. */
  datatype Pen = Pen(i: nat, j: nat, err: int)

  function Steps(dx: nat, dy: nat): nat { if dx < dy then dy else dx }

  /** One turn of the loop: both tests look at the error before it changes. */
  function Advance(dx: nat, dy: nat, pen: Pen): Pen {
    var right := 2 * pen.err + dy > 0;
    var down := 2 * pen.err < dx;
    Pen(if right then pen.i + 1 else pen.i, if down then pen.j + 1 else pen.j,
        pen.err - (if right then dy else 0) + (if down then dx else 0))
  }

  function After(dx: nat, dy: nat, k: nat): Pen {
    if k == 0 then Pen(0, 0, dx - dy) else Advance(dx, dy, After(dx, dy, k - 1))
  }

  // ---- the ideal line ----

  /** `dx` (or `dy`) times the distance of pixel (i, j) from the line, along the minor axis. */
  function Deviation(dx: nat, dy: nat, i: int, j: int): int { dx * j - dy * i }

  /** The pixel lies within half a pixel of the line; a tie goes to one fixed side. */
  predicate Nearest(dx: nat, dy: nat, i: int, j: int) {
    var twice := 2 * Deviation(dx, dy, i, j);
    if dx >= dy then 0 <= i <= dx && 0 <= twice + dx && (twice < dx || i == j == 0)
    else 0 <= j <= dy && 0 < twice + dy && twice <= dy
  }

  lemma DeviationSteps(dx: nat, dy: nat, i: int, j: int)
    ensures Deviation(dx, dy, i + 1, j) == Deviation(dx, dy, i, j) - dy
    ensures Deviation(dx, dy, i, j + 1) == Deviation(dx, dy, i, j) + dx
    ensures Deviation(dx, dy, i + 1, j + 1) == Deviation(dx, dy, i, j) + dx - dy
  {
    Distribute(j, 1, dx);
    Distribute(i, 1, dy);
  }

  /** The error is the deviation in disguise, and the pen is always on a nearest pixel. */
  ghost predicate OnTrack(dx: nat, dy: nat, k: nat, pen: Pen) {
    && pen.err == dx - dy + Deviation(dx, dy, pen.i, pen.j)
    && Nearest(dx, dy, pen.i, pen.j)
    && (if dx >= dy then pen.i == k else pen.j == k)
    && (dx == dy ==> pen.j == k)
  }

  lemma AdvanceKeepsTrack(dx: nat, dy: nat, k: nat, pen: Pen)
    requires k < Steps(dx, dy) && OnTrack(dx, dy, k, pen)
    ensures OnTrack(dx, dy, k + 1, Advance(dx, dy, pen))
  {
    DeviationSteps(dx, dy, pen.i, pen.j);
    assert dx == dy ==> Deviation(dx, dy, pen.i, pen.j) == 0;
    hide Deviation;
  }

  /** After `k` steps the pen has moved `k` pixels along the longer axis and is on the nearest
      pixel of the line there. */
  lemma {:induction false} PenFollowsLine(dx: nat, dy: nat, k: nat)
    requires k <= Steps(dx, dy)
    ensures OnTrack(dx, dy, k, After(dx, dy, k))
  {
    if k > 0 {
      PenFollowsLine(dx, dy, k - 1);
      AdvanceKeepsTrack(dx, dy, k - 1, After(dx, dy, k - 1));
    }
  }

  /** A nearest pixel stays inside the bounding box of the line. */
  lemma NearestInBox(dx: nat, dy: nat, i: int, j: int)
    requires Nearest(dx, dy, i, j)
    ensures 0 <= i <= dx && 0 <= j <= dy
  {
    if dx >= dy {
      if dx > 0 { MinorInBox(dx, dy, i, j); }
    } else {
      MinorInBox(dy, dx, j, i);
    }
  }

  lemma MinorInBox(major: nat, minor: nat, m: int, n: int)
    requires major > 0 && 0 <= m <= major && 0 <= 2 * (major * n - minor * m) + major <= 2 * major
    ensures 0 <= n <= minor
  {
    ProductOfNonnegatives(minor, m);
    ProductOfNonnegatives(minor, major - m);
    assert minor * (major - m) == minor * major - minor * m;
    Distribute(0, n, major);
    Distribute(n, minor, major);
    if n < 0 { AtLeastOnce(0 - n, major); }
    if n > minor { AtLeastOnce(n - minor, major); }
  }

  /** The pen reaches the far end after exactly the longer span, and never before. */
  lemma ArrivesExactly(dx: nat, dy: nat, k: nat)
    requires k <= Steps(dx, dy)
    ensures (After(dx, dy, k).i == dx && After(dx, dy, k).j == dy) <==> k == Steps(dx, dy)
    ensures After(dx, dy, k).i <= dx && After(dx, dy, k).j <= dy
  {
    PenFollowsLine(dx, dy, k);
    var pen := After(dx, dy, k);
    NearestInBox(dx, dy, pen.i, pen.j);
    if k == Steps(dx, dy) {
      if dx >= dy { AtEnd(dx, dy, pen.j); } else { AtEnd(dy, dx, pen.i); }
    }
  }

  lemma AtEnd(major: nat, minor: nat, n: int)
    requires 0 <= n <= minor && (major == 0 ==> minor == 0) && 0 <= 2 * (major * n - minor * major) + major <= 2 * major
    ensures n == minor
  {
    if major > 0 {
      Distribute(n, minor, major);
      SameProduct(n - minor, major);
    }
  }

  /** There is exactly one nearest pixel at each place along the longer axis. */
  lemma NearestUnique(dx: nat, dy: nat, i: int, j: int, k: nat)
    requires Nearest(dx, dy, i, j) && k == if dx >= dy then i else j
    ensures k <= Steps(dx, dy) && After(dx, dy, k).i == i && After(dx, dy, k).j == j
  {
    NearestInBox(dx, dy, i, j);
    PenFollowsLine(dx, dy, k);
    var pen := After(dx, dy, k);
    NearestInBox(dx, dy, pen.i, pen.j);
    if dx >= dy {
      if dx > 0 { Closest(dx, j, pen.j); }
    } else {
      Closest(dy, i, pen.i);
    }
  }

  lemma Closest(major: nat, a: int, b: int)
    requires major > 0 && 0 < major * a - major * b + major < 2 * major
    ensures a == b
  {
    Distribute(a, b, major);
    SameProduct(a - b, major);
  }

  // ---- drawing ----

  const EMPTY_RECT := Rect(0, 0, 0, 0)

  /** Common pixels of two rectangles, exact for every 32-bit position and size. */
  function IntersectRect(a: Rect, b: Rect): Rect {
    if a.IsEmpty() || b.IsEmpty() then EMPTY_RECT
    else
      var x0, y0 := Max(a.x, b.x), Max(a.y, b.y);
      var x1, y1 := Min(a.x + a.width, b.x + b.width), Min(a.y + a.height, b.y + b.height);
      if x1 <= x0 || y1 <= y0 then EMPTY_RECT else Rect(x0, y0, x1 - x0, y1 - y0)
  }

  lemma IntersectRectExact(a: Rect, b: Rect, p: Point)
    ensures IntersectRect(a, b).Contains(p) <==> a.Contains(p) && b.Contains(p)
    ensures IntersectRect(a, b).width == 0 <==> IntersectRect(a, b).height == 0
  {
  }

  type Coord = (i32, i32)

  /** How far `x` lies from the start, counted towards the end. */
  function Away(from_: int, to: int, x: int): int { if from_ <= to then x - from_ else from_ - x }

  function Span(from_: int, to: int): nat { if from_ <= to then to - from_ else from_ - to }

  /** The pixel is one of the nearest pixels of the line between two points. */
  predicate OnLine(p0: Coord, p1: Coord, p: Point) {
    Nearest(Span(p0.0, p1.0), Span(p0.1, p1.1), Away(p0.0, p1.0, p.x), Away(p0.1, p1.1, p.y))
  }

  /** The pixel is where the pen was after some number of steps below `k`. */
  ghost predicate Passed(p0: Coord, p1: Coord, k: nat, p: Point) {
    exists m: nat :: m < k && PenAt(p0, p1, m, p)
  }

  predicate PenAt(p0: Coord, p1: Coord, m: nat, p: Point) {
    var pen := After(Span(p0.0, p1.0), Span(p0.1, p1.1), m);
    pen.i == Away(p0.0, p1.0, p.x) && pen.j == Away(p0.1, p1.1, p.y)
  }

  /** The pen passes exactly over the nearest pixels. */
  lemma PassedIsOnLine(p0: Coord, p1: Coord, p: Point)
    ensures Passed(p0, p1, Steps(Span(p0.0, p1.0), Span(p0.1, p1.1)) + 1, p) <==> OnLine(p0, p1, p)
  {
    var dx, dy := Span(p0.0, p1.0), Span(p0.1, p1.1);
    var i, j := Away(p0.0, p1.0, p.x), Away(p0.1, p1.1, p.y);
    if Passed(p0, p1, Steps(dx, dy) + 1, p) {
      var m: nat :| m < Steps(dx, dy) + 1 && PenAt(p0, p1, m, p);
      PenFollowsLine(dx, dy, m);
    }
    if OnLine(p0, p1, p) {
      var k := if dx >= dy then i else j;
      NearestUnique(dx, dy, i, j, k);
      assert PenAt(p0, p1, k, p);
    }
  }

  lemma PassedMore(p0: Coord, p1: Coord, k: nat, p: Point)
    ensures Passed(p0, p1, k + 1, p) <==> Passed(p0, p1, k, p) || PenAt(p0, p1, k, p)
  {
  }

  class Canvas<Color(0)> {
    const pixels: array2<Color>
    const clip: Rect

    /** Rows by columns; the extent fits a layout. */
    ghost predicate Valid()
    {
      pixels.Length0 <= MAX_SURFACE_EXTENT && pixels.Length1 <= MAX_SURFACE_EXTENT
    }

    function Bounds(): Rect
      requires Valid()
    {
      Rect(0, 0, pixels.Length1, pixels.Length0)
    }

    predicate Visible(p: Point)
      requires Valid()
    {
      clip.Contains(p) && Bounds().Contains(p)
    }

    function DrawRect(target: Rect): Rect
      requires Valid()
    {
      IntersectRect(IntersectRect(clip, target), Bounds())
    }

    method Plot(x: int, y: int, c: Color)
      requires Valid()
      modifies pixels
      ensures forall p: Point :: Bounds().Contains(p) ==>
                pixels[p.y, p.x] == if p == Point(x, y) && Visible(p) then c else old(pixels[p.y, p.x])
    {
      if !(I32_MIN <= x <= I32_MAX && I32_MIN <= y <= I32_MAX) { return; }
      IntersectRectExact(clip, Rect(x, y, 1, 1), Point(x, y));
      IntersectRectExact(IntersectRect(clip, Rect(x, y, 1, 1)), Bounds(), Point(x, y));
      if DrawRect(Rect(x, y, 1, 1)).width == 0 {
        assert !Visible(Point(x, y));
        return;
      }
      pixels[y, x] := c;
    }

    /** Every pixel so far passed and visible has the colour; the others are untouched. */
    twostate predicate Painted(p0: Coord, p1: Coord, k: nat, c: Color)
      requires Valid()
      reads pixels
    {
      forall p: Point :: Bounds().Contains(p) ==>
        pixels[p.y, p.x] == if Passed(p0, p1, k, p) && Visible(p) then c else old(pixels[p.y, p.x])
    }

    /** Colours exactly the visible nearest pixels of the line, unless a span is out of range. */
    method DrawLine(p0: Coord, p1: Coord, c: Color)
      requires Valid()
      modifies pixels
      ensures forall p: Point :: Bounds().Contains(p) ==>
                pixels[p.y, p.x] ==
                if Span(p0.0, p1.0) <= 2 * MAX_SURFACE_EXTENT && Span(p0.1, p1.1) <= 2 * MAX_SURFACE_EXTENT
                   && OnLine(p0, p1, p) && Visible(p)
                then c else old(pixels[p.y, p.x])
    {
      var dx, dy := Span(p0.0, p1.0), Span(p0.1, p1.1);
      if dx > 2 * MAX_SURFACE_EXTENT || dy > 2 * MAX_SURFACE_EXTENT { return; }
      var box := Rect(Min(p0.0, p1.0), Min(p0.1, p1.1), dx + 1, dy + 1);
      if DrawRect(box).width == 0 {
        forall p: Point | Bounds().Contains(p) ensures !(OnLine(p0, p1, p) && Visible(p)) { MissesBox(p0, p1, p, box); }
        return;
      }
      Stroke(p0, p1, c);
      forall p: Point ensures Passed(p0, p1, Steps(dx, dy) + 1, p) <==> OnLine(p0, p1, p) { PassedIsOnLine(p0, p1, p); }
    }

    /** Walks the pen from one end to the other, plotting every pixel it passes. */
    method Stroke(p0: Coord, p1: Coord, c: Color)
      requires Valid()
      modifies pixels
      ensures Painted(p0, p1, Steps(Span(p0.0, p1.0), Span(p0.1, p1.1)) + 1, c)
    {
      var dx, dy := Span(p0.0, p1.0), Span(p0.1, p1.1);
      var x: int, y: int, err: int := p0.0, p0.1, dx - dy;
      var sx, sy := if p0.0 <= p1.0 then 1 else -1, if p0.1 <= p1.1 then 1 else -1;
      ghost var k: nat := 0;
      assert Painted(p0, p1, k, c);
      hide Passed;
      while true
        invariant k <= Steps(dx, dy)
        invariant PenAt(p0, p1, k, Point(x, y)) && err == After(dx, dy, k).err
        invariant Painted(p0, p1, k, c)
        decreases Steps(dx, dy) - k
      {
        ghost var here := Point(x, y);
        Plot(x, y, c);
        forall p: Point
          ensures Passed(p0, p1, k + 1, p) <==> Passed(p0, p1, k, p) || p == here
        {
          PassedMore(p0, p1, k, p);
        }
        assert Painted(p0, p1, k + 1, c);
        ArrivesExactly(dx, dy, k);
        if x == p1.0 && y == p1.1 { return; }
        var e2 := 2 * err;
        if e2 + dy > 0 {
          err := err - dy;
          x := x + sx;
        }
        if e2 < dx {
          err := err + dx;
          y := y + sy;
        }
        k := k + 1;
      }
    }

    /** A line whose bounding box is not drawn has no visible pixel. */
    lemma MissesBox(p0: Coord, p1: Coord, p: Point, box: Rect)
      requires Valid() && box.x == Min(p0.0, p1.0) && box.y == Min(p0.1, p1.1)
      requires box.width == Span(p0.0, p1.0) + 1 && box.height == Span(p0.1, p1.1) + 1
      requires DrawRect(box).width == 0
      ensures !(OnLine(p0, p1, p) && Visible(p))
    {
      if OnLine(p0, p1, p) {
        NearestInBox(Span(p0.0, p1.0), Span(p0.1, p1.1), Away(p0.0, p1.0, p.x), Away(p0.1, p1.1, p.y));
        IntersectRectExact(clip, box, p);
        IntersectRectExact(IntersectRect(clip, box), Bounds(), p);
      }
    }
  }
}
