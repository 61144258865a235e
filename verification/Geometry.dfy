/** Rectangles with checked 32-bit arithmetic, and bounded rectangle sets that collapse. */
module Geometry {
  import opened Wrappers

  const I32_MIN: int := -0x8000_0000
  const I32_MAX: int := 0x7FFF_FFFF
  const MAX_SURFACE_EXTENT: nat := 4096

  type i32 = n: int | I32_MIN <= n <= I32_MAX

  datatype GeometryError = Overflow | EmptyExtent

  datatype Point = Point(x: int, y: int)

  datatype Size = Size(width: u32, height: u32)

  /** Half-open: `[x, x + width)` by `[y, y + height)`. */
  datatype Rect = Rect(x: i32, y: i32, width: u32, height: u32) {
    predicate IsEmpty() { width == 0 || height == 0 }

    predicate Contains(p: Point) {
      x <= p.x < x + width && y <= p.y < y + height
    }

    /** Both far edges are representable. */
    predicate Validates() {
      width <= I32_MAX && height <= I32_MAX && x + width <= I32_MAX && y + height <= I32_MAX
    }

    /** A non-empty rectangle inside `[0, w) x [0, h)`. */
    predicate Within(w: nat, h: nat) {
      !IsEmpty() && 0 <= x && 0 <= y && x + width <= w && y + height <= h
    }
  }

  function Max(a: int, b: int): int { if a < b then b else a }
  function Min(a: int, b: int): int { if a < b then a else b }

  /** Common pixels of two rectangles; a difference that is not positive means none. */
  function Intersect(a: Rect, b: Rect): Result<Option<Rect>, GeometryError> {
    if !a.Validates() || !b.Validates() then Failure(Overflow)
    else
      var left := Max(a.x, b.x);
      var top := Max(a.y, b.y);
      var width := Min(a.x + a.width, b.x + b.width) - left;
      var height := Min(a.y + a.height, b.y + b.height) - top;
      if width <= 0 || height <= 0 then Success(None) else Success(Some(Rect(left, top, width, height)))
  }

  function UnionBounds(a: Rect, b: Rect): Result<Rect, GeometryError> {
    if a.IsEmpty() then Success(b)
    else if b.IsEmpty() then Success(a)
    else if !a.Validates() || !b.Validates() then Failure(Overflow)
    else
      var left := Min(a.x, b.x);
      var top := Min(a.y, b.y);
      var width := Max(a.x + a.width, b.x + b.width) - left;
      var height := Max(a.y + a.height, b.y + b.height) - top;
      if width > I32_MAX || height > I32_MAX then Failure(Overflow)
      else if width == 0 || height == 0 then Failure(EmptyExtent)
      else Success(Rect(left, top, width, height))
  }

  function ClipTo(r: Rect, bounds: Size): Result<Option<Rect>, GeometryError> {
    if bounds.width > I32_MAX || bounds.height > I32_MAX then Failure(Overflow)
    else if !r.Validates() then Failure(Overflow)
    else if r.IsEmpty() then Success(None)
    else Intersect(r, Rect(0, 0, bounds.width, bounds.height))
  }

  /** Buffer-pixel damage as a client sends it. */
  datatype BufferRect = BufferRect(x: u16, y: u16, width: u16, height: u16) {
    function ToRect(): Rect { Rect(x, y, width, height) }
  }

  /** The part of `b` inside `[0, width) x [0, height)`, if any. */
  function ClipToExtent(b: BufferRect, width: nat, height: nat): Option<BufferRect> {
    if b.width == 0 || b.height == 0 || b.x >= width || b.y >= height then None
    else Some(BufferRect(b.x, b.y, Min(b.x + b.width, width) - b.x, Min(b.y + b.height, height) - b.y))
  }

  lemma ClipToExtentExact(b: BufferRect, width: nat, height: nat, p: Point)
    ensures match ClipToExtent(b, width, height)
            case None => !(b.ToRect().Contains(p) && p.x < width && p.y < height)
            case Some(c) =>
              && c.ToRect().Within(width, height)
              && (c.ToRect().Contains(p) <==> b.ToRect().Contains(p) && p.x < width && p.y < height)
  {
  }

  lemma IntersectExact(a: Rect, b: Rect, p: Point)
    requires Intersect(a, b).Success?
    ensures match Intersect(a, b).value
            case None => !(a.Contains(p) && b.Contains(p))
            case Some(c) => c.Validates() && !c.IsEmpty() && (c.Contains(p) <==> a.Contains(p) && b.Contains(p))
  {
  }

  /** Clipping succeeds exactly on representable input and keeps exactly the pixels inside. */
  lemma ClipExact(r: Rect, bounds: Size, p: Point)
    requires bounds.width <= MAX_SURFACE_EXTENT && bounds.height <= MAX_SURFACE_EXTENT
    ensures ClipTo(r, bounds).Success? <==> r.Validates()
    ensures ClipTo(r, bounds).Success? ==>
              match ClipTo(r, bounds).value
              case None => !(r.Contains(p) && 0 <= p.x < bounds.width && 0 <= p.y < bounds.height)
              case Some(c) =>
                && c.Within(bounds.width, bounds.height)
                && (c.Contains(p) <==> r.Contains(p) && 0 <= p.x < bounds.width && 0 <= p.y < bounds.height)
  {
  }

  /** The bounding box of two rectangles inside an extent is the least rectangle holding both. */
  lemma UnionBoundsExact(a: Rect, b: Rect, w: nat, h: nat, p: Point)
    requires a.Within(w, h) && b.Within(w, h) && w <= MAX_SURFACE_EXTENT && h <= MAX_SURFACE_EXTENT
    ensures UnionBounds(a, b).Success?
    ensures var u := UnionBounds(a, b).value;
            && u.Within(w, h) && (a.Contains(p) || b.Contains(p) ==> u.Contains(p))
            && (forall r: Rect ::
                  && r.x <= a.x && r.y <= a.y && a.x + a.width <= r.x + r.width && a.y + a.height <= r.y + r.height
                  && r.x <= b.x && r.y <= b.y && b.x + b.width <= r.x + r.width && b.y + b.height <= r.y + r.height
                  ==> (u.Contains(p) ==> r.Contains(p)))
  {
  }

  // ---- rectangle sets ----

  /** At most `capacity` rectangles; inserting into a full set collapses it to its bounding box. */
  datatype RectSet = RectSet(rects: seq<Rect>, collapsed: bool)

  const EMPTY_SET := RectSet([], false)

  predicate Covers(rects: seq<Rect>, p: Point) {
    exists i :: 0 <= i < |rects| && rects[i].Contains(p)
  }

  predicate AllWithin(rects: seq<Rect>, w: nat, h: nat) {
    forall i :: 0 <= i < |rects| ==> rects[i].Within(w, h)
  }

  /** The bounding box of `acc` and the first `k` rectangles. */
  function BoundsOf(acc: Rect, rects: seq<Rect>): Result<Rect, GeometryError> {
    if rects == [] then Success(acc)
    else
      var before := BoundsOf(acc, rects[..|rects| - 1]);
      if before.Failure? then before else UnionBounds(before.value, rects[|rects| - 1])
  }

  function Insert(set_: RectSet, capacity: nat, rect: Rect): Result<RectSet, GeometryError>
    requires capacity > 0
  {
    if rect.IsEmpty() then Success(set_)
    else if !rect.Validates() then Failure(Overflow)
    else if |set_.rects| < capacity then Success(set_.(rects := set_.rects + [rect]))
    else
      var bounds := BoundsOf(set_.rects[0], set_.rects[1..] + [rect]);
      if bounds.Failure? then Failure(bounds.error)
      else if !bounds.value.Validates() then Failure(Overflow)
      else Success(RectSet([bounds.value], true))
  }

  /** The same insertion, with the accumulating loop. */
  method InsertRect(set_: RectSet, capacity: nat, rect: Rect) returns (r: Result<RectSet, GeometryError>)
    requires capacity > 0
    ensures r == Insert(set_, capacity, rect)
  {
    if rect.IsEmpty() { return Success(set_); }
    if !rect.Validates() { return Failure(Overflow); }
    if |set_.rects| < capacity { return Success(set_.(rects := set_.rects + [rect])); }
    ghost var all := set_.rects[1..] + [rect];
    var acc := set_.rects[0];
    var i := 1;
    while i < |set_.rects|
      invariant 1 <= i <= |set_.rects|
      invariant BoundsOf(set_.rects[0], all[..i - 1]) == Success(acc)
    {
      assert all[..i][..i - 1] == all[..i - 1] && all[i - 1] == set_.rects[i];
      var next := UnionBounds(acc, set_.rects[i]);
      if next.Failure? {
        BoundsFailOnwards(set_.rects[0], all, i);
        return Failure(next.error);
      }
      acc := next.value;
      i := i + 1;
    }
    assert all[..|all|] == all && all[..|all|][..|all| - 1] == all[..i - 1];
    var last := UnionBounds(acc, rect);
    if last.Failure? { return Failure(last.error); }
    if !last.value.Validates() { return Failure(Overflow); }
    r := Success(RectSet([last.value], true));
  }

  lemma {:induction false} BoundsFailOnwards(acc: Rect, rects: seq<Rect>, k: nat)
    requires k <= |rects| && BoundsOf(acc, rects[..k]).Failure?
    ensures BoundsOf(acc, rects) == BoundsOf(acc, rects[..k])
    decreases |rects|
  {
    if k < |rects| {
      assert rects[..|rects| - 1][..k] == rects[..k];
      BoundsFailOnwards(acc, rects[..|rects| - 1], k);
    } else {
      assert rects[..k] == rects;
    }
  }

  lemma {:induction false} BoundsCover(acc: Rect, rects: seq<Rect>, w: nat, h: nat)
    requires acc.Within(w, h) && AllWithin(rects, w, h) && w <= MAX_SURFACE_EXTENT && h <= MAX_SURFACE_EXTENT
    ensures var b := BoundsOf(acc, rects);
            && b.Success? && b.value.Within(w, h)
            && forall p: Point :: acc.Contains(p) || Covers(rects, p) ==> b.value.Contains(p)
  {
    if rects != [] {
      var rest := rects[..|rects| - 1];
      BoundsCover(acc, rest, w, h);
      var b := BoundsOf(acc, rest).value;
      forall p: Point
        ensures acc.Contains(p) || Covers(rects, p) ==>
                  UnionBounds(b, rects[|rects| - 1]).Success? && UnionBounds(b, rects[|rects| - 1]).value.Contains(p)
      {
        UnionBoundsExact(b, rects[|rects| - 1], w, h, p);
        if Covers(rects, p) {
          var i :| 0 <= i < |rects| && rects[i].Contains(p);
          if i < |rects| - 1 { assert rest[i].Contains(p); }
        }
      }
      UnionBoundsExact(b, rects[|rects| - 1], w, h, Point(0, 0));
    }
  }

  /** Inside an extent insertion never fails, never loses a pixel and never leaves the extent. */
  lemma InsertCovers(set_: RectSet, capacity: nat, rect: Rect, w: nat, h: nat)
    requires capacity > 0 && rect.Within(w, h) && AllWithin(set_.rects, w, h)
    requires w <= MAX_SURFACE_EXTENT && h <= MAX_SURFACE_EXTENT
    ensures var r := Insert(set_, capacity, rect);
            && r.Success? && AllWithin(r.value.rects, w, h) && 0 < |r.value.rects|
            && (|set_.rects| <= capacity ==> |r.value.rects| <= capacity)
            && (forall p: Point :: Covers(set_.rects, p) || rect.Contains(p) ==> Covers(r.value.rects, p))
            && (|set_.rects| < capacity ==>
                  && r.value == RectSet(set_.rects + [rect], set_.collapsed)
                  && forall p: Point :: Covers(r.value.rects, p) ==> Covers(set_.rects, p) || rect.Contains(p))
  {
    if |set_.rects| < capacity {
      var after := set_.rects + [rect];
      forall p: Point ensures Covers(after, p) <==> Covers(set_.rects, p) || rect.Contains(p) {
        CoversAppend(set_.rects, rect, p);
      }
    } else {
      var rest := set_.rects[1..] + [rect];
      BoundsCover(set_.rects[0], rest, w, h);
      var b := BoundsOf(set_.rects[0], rest).value;
      forall p: Point | Covers(set_.rects, p) || rect.Contains(p) ensures Covers([b], p) {
        if rect.Contains(p) {
          assert rest[|rest| - 1].Contains(p);
        } else {
          var i :| 0 <= i < |set_.rects| && set_.rects[i].Contains(p);
          if i > 0 { assert rest[i - 1].Contains(p); }
        }
        assert [b][0].Contains(p);
      }
    }
  }

  lemma CoversAppend(rects: seq<Rect>, r: Rect, p: Point)
    ensures Covers(rects + [r], p) <==> Covers(rects, p) || r.Contains(p)
  {
    var after := rects + [r];
    if Covers(rects, p) {
      var i :| 0 <= i < |rects| && rects[i].Contains(p);
      assert after[i].Contains(p);
    }
    if r.Contains(p) { assert after[|rects|].Contains(p); }
    if Covers(after, p) {
      var i :| 0 <= i < |after| && after[i].Contains(p);
      if i < |rects| { assert rects[i].Contains(p); }
    }
  }
}
