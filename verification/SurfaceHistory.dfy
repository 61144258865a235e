/** What a client declared to one surface over a run, and how the surface's sets relate to it. */
module SurfaceHistory {
  import opened Wrappers
  import opened Geometry
  import opened Tracker
  import opened Surfaces

  datatype SurfaceOp =
    | AttachOp(buffer: Option<BufferId>, scale: nat, entries: Entries)
    | DamageOp(damaged: seq<BufferRect>)
    | OpaqueOp(rects: seq<Rect>, replace: bool)
    | InputOp(rects: seq<Rect>, replace: bool)
    | CommitOp(layout: BufferLayout, requestFrame: bool)
    | LatchOp
    | SubmitOp(presentSeq: nat)
    | CompleteOp(completedSeq: nat)

  function SurfaceStep(s: Surface, op: SurfaceOp): Surface {
    match op
    case AttachOp(buffer, scale, entries) => AttachBuffer(s, buffer, scale, entries).0
    case DamageOp(rects) => Damage(s, rects).0
    case OpaqueOp(rects, replace) => SetOpaqueRegion(s, rects, replace).0
    case InputOp(rects, replace) => SetInputRegion(s, rects, replace).0
    case CommitOp(layout, requestFrame) => ApplyCommit(s, layout, requestFrame).0
    case LatchOp => LatchSurface(s).0
    case SubmitOp(n) => FrameSubmitted(s, n).0
    case CompleteOp(n) => PresentCompleted(s, n).0
  }

  function SurfaceRun(ops: seq<SurfaceOp>): Surface {
    if ops == [] then NEW_SURFACE else SurfaceStep(SurfaceRun(ops[..|ops| - 1]), ops[|ops| - 1])
  }

  /** Everything accepted from the client, unclipped and in order.
      `damage` waits for a commit, `committedDamage` for a latch; the regions go back to the last
      replacement; `extents` lists the mapping after the last latch and after each commit since. */
  datatype Declared = Declared(
    damage: seq<BufferRect>, committedDamage: seq<BufferRect>, extents: seq<Option<(Extent, Extent)>>,
    opaque_: seq<Rect>, input: seq<Rect>, committedOpaque: seq<Rect>, committedInput: seq<Rect>)

  const NOTHING_DECLARED := Declared([], [], [None], [], [EXTENT_RECT], [], [EXTENT_RECT])

  function Declare(h: Declared, s: Surface, op: SurfaceOp): Declared {
    match op
    case DamageOp(rects) =>
      if Damage(s, rects).1.Success? then h.(damage := h.damage + rects) else h
    case OpaqueOp(rects, replace) =>
      if SetOpaqueRegion(s, rects, replace).1.Failure? then h
      else h.(opaque_ := (if replace then [] else h.opaque_) + rects)
    case InputOp(rects, replace) =>
      if SetInputRegion(s, rects, replace).1.Failure? then h
      else h.(input := (if replace then [] else h.input) + rects)
    case CommitOp(layout, _) =>
      h.(damage := [], committedDamage := h.committedDamage + h.damage,
         extents := h.extents + [ExtentOf(NextBuffer(s, layout))],
         committedOpaque := h.opaque_, committedInput := h.input)
    case LatchOp => h.(committedDamage := [], extents := [ExtentOf(s.committed.buffer)])
    case _ => h
  }

  function DeclaredBy(ops: seq<SurfaceOp>): Declared {
    if ops == [] then NOTHING_DECLARED
    else
      var before := ops[..|ops| - 1];
      Declare(DeclaredBy(before), SurfaceRun(before), ops[|ops| - 1])
  }

  predicate Damaged(rects: seq<BufferRect>, p: Point) {
    exists i :: 0 <= i < |rects| && rects[i].ToRect().Contains(p)
  }

  predicate InExtent(p: Point, w: nat, h: nat) { 0 <= p.x < w && 0 <= p.y < h }

  /** Some commit since the last latch changed the mapping or its extent. */
  predicate Resized(extents: seq<Option<(Extent, Extent)>>) {
    exists i :: 0 < i < |extents| && extents[i - 1] != extents[i]
  }

  // ---- folds keep every pixel ----

  lemma {:induction false} InsertClippedCovers(base: RectSet, capacity: nat, rects: seq<Rect>, size: Size)
    requires capacity > 0 && size.width <= MAX_SURFACE_EXTENT && size.height <= MAX_SURFACE_EXTENT
    requires AllWithin(base.rects, size.width, size.height) && AllWithin(rects, MAX_SURFACE_EXTENT, MAX_SURFACE_EXTENT)
    requires |base.rects| <= capacity
    ensures var r := InsertClipped(base, capacity, rects, size);
            && AllWithin(r.rects, size.width, size.height) && |r.rects| <= capacity
            && (forall p: Point ::
                  Covers(base.rects, p) || (Covers(rects, p) && InExtent(p, size.width, size.height)) ==>
                    Covers(r.rects, p))
            && (|base.rects| + |rects| <= capacity ==>
                  && |r.rects| <= |base.rects| + |rects|
                  && forall p: Point :: Covers(r.rects, p) ==> Covers(base.rects, p) || Covers(rects, p))
  {
    if rects != [] {
      var n := |rects| - 1;
      var rest, last := rects[..n], rects[n];
      InsertClippedCovers(base, capacity, rest, size);
      var before := InsertClipped(base, capacity, rest, size);
      ClipExact(last, size, Point(0, 0));
      var clipped := ClipTo(last, size).value;
      if clipped.Some? { InsertCovers(before, capacity, clipped.value, size.width, size.height); }
      forall p: Point ensures Covers(rects, p) <==> Covers(rest, p) || last.Contains(p) {
        assert rects == rest + [last];
        CoversAppend(rest, last, p);
      }
      forall p: Point
        ensures clipped.Some? ==>
                  (clipped.value.Contains(p) <==> last.Contains(p) && InExtent(p, size.width, size.height))
        ensures clipped.None? ==> !(last.Contains(p) && InExtent(p, size.width, size.height))
      {
        ClipExact(last, size, p);
      }
    }
  }

  lemma {:induction false} InsertAllCovers(base: RectSet, capacity: nat, rects: seq<Rect>, w: nat, h: nat)
    requires capacity > 0 && w <= MAX_SURFACE_EXTENT && h <= MAX_SURFACE_EXTENT
    requires AllWithin(base.rects, w, h) && AllWithin(rects, w, h) && |base.rects| <= capacity
    ensures var r := InsertAll(base, capacity, rects);
            && AllWithin(r.rects, w, h) && |r.rects| <= capacity
            && (forall p: Point :: Covers(base.rects, p) || Covers(rects, p) ==> Covers(r.rects, p))
            && (|base.rects| + |rects| <= capacity ==> r == RectSet(base.rects + rects, base.collapsed))
  {
    hide Covers, Rect.Contains, Insert;
    if rects == [] {
      assert base.rects + rects == base.rects;
      forall p: Point ensures !Covers([], p) { CoversNothing(p); }
    } else {
      var n := |rects| - 1;
      var rest, last := rects[..n], rects[n];
      InsertAllCovers(base, capacity, rest, w, h);
      InsertCovers(InsertAll(base, capacity, rest), capacity, last, w, h);
      assert base.rects + rects == base.rects + rest + [last] && rects == rest + [last];
      forall p: Point ensures Covers(rects, p) <==> Covers(rest, p) || last.Contains(p) {
        CoversAppend(rest, last, p);
      }
    }
  }

  lemma {:induction false} DamageSetCovers(base: RectSet, rects: seq<BufferRect>)
    requires AllWithin(base.rects, MAX_SURFACE_EXTENT, MAX_SURFACE_EXTENT)
    requires |base.rects| <= MAX_DAMAGE_RECTS_PER_COMMIT
    ensures var r := DamageSet(base, rects);
            && r.Success? && AllWithin(r.value.rects, MAX_SURFACE_EXTENT, MAX_SURFACE_EXTENT)
            && |r.value.rects| <= MAX_DAMAGE_RECTS_PER_COMMIT
            && forall p: Point ::
                 Covers(base.rects, p) || (Damaged(rects, p) && InExtent(p, MAX_SURFACE_EXTENT, MAX_SURFACE_EXTENT))
                 ==> Covers(r.value.rects, p)
  {
    if rects != [] {
      var n := |rects| - 1;
      DamageSetCovers(base, rects[..n]);
      var before := DamageSet(base, rects[..n]).value;
      var clipped := ClipToExtent(rects[n], MAX_SURFACE_EXTENT, MAX_SURFACE_EXTENT);
      ClipToExtentExact(rects[n], MAX_SURFACE_EXTENT, MAX_SURFACE_EXTENT, Point(0, 0));
      if clipped.Some? {
        InsertCovers(before, MAX_DAMAGE_RECTS_PER_COMMIT, clipped.value.ToRect(), MAX_SURFACE_EXTENT,
                     MAX_SURFACE_EXTENT);
      }
      var after := DamageSet(base, rects).value;
      forall p: Point | Damaged(rects, p) && InExtent(p, MAX_SURFACE_EXTENT, MAX_SURFACE_EXTENT)
        ensures Covers(after.rects, p)
      {
        ClipToExtentExact(rects[n], MAX_SURFACE_EXTENT, MAX_SURFACE_EXTENT, p);
        var i :| 0 <= i < |rects| && rects[i].ToRect().Contains(p);
        if i < n { assert rects[..n][i].ToRect().Contains(p); }
      }
    }
  }

  // ---- regions are exact lists ----

  lemma CoversNothing(p: Point)
    ensures !Covers([], p)
  {
  }

  lemma WithinAppend(rects: seq<Rect>, r: Rect, w: nat, h: nat)
    ensures AllWithin(rects + [r], w, h) <==> AllWithin(rects, w, h) && r.Within(w, h)
    ensures AllWithin([], w, h)
  {
    hide Rect.Within;
    var after := rects + [r];
    if AllWithin(after, w, h) {
      assert after[|rects|].Within(w, h);
      forall i | 0 <= i < |rects| ensures rects[i].Within(w, h) { assert after[i].Within(w, h); }
    }
  }

  lemma ClipRegionStep(rects: seq<Rect>)
    requires rects != [] && ClipRegion(rects).Success?
    ensures var n := |rects| - 1;
            && ClipRegion(rects[..n]).Success? && ClipTo(rects[n], EXTENT_SIZE).Success?
            && var before, last := ClipRegion(rects[..n]).value, ClipTo(rects[n], EXTENT_SIZE).value;
            ClipRegion(rects).value == if last.Some? then before + [last.value] else before
  {
    hide ClipTo;
  }

  /** Clipping a region request keeps exactly the pixels of its rectangles inside the extent. */
  lemma {:induction false} ClipRegionExact(rects: seq<Rect>, p: Point)
    requires ClipRegion(rects).Success?
    ensures var c := ClipRegion(rects).value;
            && AllWithin(c, MAX_SURFACE_EXTENT, MAX_SURFACE_EXTENT) && |c| <= |rects|
            && (Covers(c, p) <==> Covers(rects, p) && InExtent(p, MAX_SURFACE_EXTENT, MAX_SURFACE_EXTENT))
  {
    if rects == [] {
      CoversNothing(p);
    } else {
      ClipRegionStep(rects);
      hide ClipRegion, ClipTo, Covers, AllWithin, Rect.Contains, Rect.Within;
      var n := |rects| - 1;
      ClipRegionExact(rects[..n], p);
      ClipExact(rects[n], EXTENT_SIZE, p);
      assert rects == rects[..n] + [rects[n]];
      CoversAppend(rects[..n], rects[n], p);
      var before, last := ClipRegion(rects[..n]).value, ClipTo(rects[n], EXTENT_SIZE).value;
      if last.Some? {
        CoversAppend(before, last.value, p);
        WithinAppend(before, last.value, MAX_SURFACE_EXTENT, MAX_SURFACE_EXTENT);
      }
    }
  }

  lemma {:induction false} ClipRegionAppend(a: seq<Rect>, b: seq<Rect>)
    requires ClipRegion(a).Success? && ClipRegion(b).Success?
    ensures ClipRegion(a + b) == Success(ClipRegion(a).value + ClipRegion(b).value)
  {
    hide ClipTo;
    if b == [] {
      assert a + b == a && ClipRegion(a).value + [] == ClipRegion(a).value;
    } else {
      var n := |b| - 1;
      ClipRegionAppend(a, b[..n]);
      assert (a + b)[..|a + b| - 1] == a + b[..n] && (a + b)[|a + b| - 1] == b[n];
      var first, before, last := ClipRegion(a).value, ClipRegion(b[..n]).value, ClipTo(b[n], EXTENT_SIZE);
      if last.Success? && last.value.Some? {
        assert first + (before + [last.value.value]) == first + before + [last.value.value];
      }
    }
  }

  /** An opaque region holds every accepted rectangle, or has degraded for having too many. */
  function OpaqueOf(clipped: seq<Rect>): OpaqueRegion {
    if |clipped| > MAX_REGION_RECTS then Degraded else OpaqueRects(RectSet(clipped, false))
  }

  function InputOf(clipped: seq<Rect>): InputRegion {
    if EXTENT_RECT in clipped then WholeSurface else InputRects(RectSet(clipped, false))
  }

  lemma {:induction false} ExtendOpaqueExact(a: seq<Rect>, b: seq<Rect>)
    requires AllWithin(b, MAX_SURFACE_EXTENT, MAX_SURFACE_EXTENT)
    ensures ExtendOpaque(OpaqueOf(a), b) == OpaqueOf(a + b)
  {
    if b == [] {
      assert a + b == a;
    } else {
      ExtendOpaqueExact(a, b[..|b| - 1]);
      assert a + b == a + b[..|b| - 1] + [b[|b| - 1]];
    }
  }
}
