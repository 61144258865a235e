/** What damage, opaque and input regions mean to a compositor, over every run of one surface. */
module SurfaceTheorems {
  import opened Wrappers
  import opened Counting
  import opened Geometry
  import opened Surfaces
  import opened SurfaceHistory

  const M := MAX_SURFACE_EXTENT

  /** Pending damage covers what was declared; unlatched damage covers what was committed,
      and the whole surface after a resize. */
  ghost predicate DamageOk(s: Surface, h: Declared) {
    && AllWithin(s.pending.damage.rects, M, M) && |s.pending.damage.rects| <= MAX_DAMAGE_RECTS_PER_COMMIT
    && AllWithin(s.unlatchedDamage.rects, M, M) && |s.unlatchedDamage.rects| <= MAX_DAMAGE_RECTS_PER_COMMIT
    && (forall p: Point :: Damaged(h.damage, p) && InExtent(p, M, M) ==> Covers(s.pending.damage.rects, p))
    && (forall p: Point :: s.committed.Inside(p) && (s.unlatchedGeometry || Damaged(h.committedDamage, p))
          ==> Covers(s.unlatchedDamage.rects, p))
  }

  predicate ExtentsOk(s: Surface, h: Declared) {
    && h.extents != [] && h.extents[|h.extents| - 1] == ExtentOf(s.committed.buffer)
    && (s.unlatchedGeometry <==> Resized(h.extents))
  }

  predicate PendingRegionsOk(s: Surface, h: Declared) {
    && ClipRegion(h.opaque_).Success? && s.pending.opaque_ == OpaqueOf(ClipRegion(h.opaque_).value)
    && ClipRegion(h.input).Success? && s.pending.input == InputOf(ClipRegion(h.input).value)
    && (s.pending.input.InputRects? ==> |s.pending.input.set_.rects| <= MAX_REGION_RECTS)
  }

  /** The committed opaque region is exact unless degraded; the hit test is always exact. */
  ghost predicate CommittedRegionsOk(s: Surface, h: Declared) {
    && ClipRegion(h.committedOpaque).Success?
    && (forall p: Point :: Covers(s.committed.opaque_.rects, p) <==>
          s.committed.Inside(p) && Covers(h.committedOpaque, p)
          && |ClipRegion(h.committedOpaque).value| <= MAX_REGION_RECTS)
    && (forall p: Point :: s.committed.AcceptsInputAt(p) <==> s.committed.Inside(p) && Covers(h.committedInput, p))
  }

  ghost predicate SurfaceOk(s: Surface, h: Declared) {
    DamageOk(s, h) && ExtentsOk(s, h) && PendingRegionsOk(s, h) && CommittedRegionsOk(s, h)
  }

  // ---- requests ----

  lemma DamagedAppend(a: seq<BufferRect>, b: seq<BufferRect>, p: Point)
    ensures Damaged(a + b, p) <==> Damaged(a, p) || Damaged(b, p)
  {
    if Damaged(a, p) {
      var i :| 0 <= i < |a| && a[i].ToRect().Contains(p);
      assert (a + b)[i].ToRect().Contains(p);
    }
    if Damaged(b, p) {
      var i :| 0 <= i < |b| && b[i].ToRect().Contains(p);
      assert (a + b)[|a| + i].ToRect().Contains(p);
    }
    if Damaged(a + b, p) {
      var i :| 0 <= i < |a + b| && (a + b)[i].ToRect().Contains(p);
      if i < |a| { assert a[i].ToRect().Contains(p); } else { assert b[i - |a|].ToRect().Contains(p); }
    }
  }

  lemma DamageKeeps(s: Surface, h: Declared, rects: seq<BufferRect>)
    requires DamageOk(s, h)
    ensures DamageOk(Damage(s, rects).0, Declare(h, s, DamageOp(rects)))
    ensures Damage(s, rects).1.Success? <==> |rects| <= DAMAGE_RECTS_PER_FRAME
  {
    DamageSetCovers(s.pending.damage, rects);
    forall p: Point ensures Damaged(h.damage + rects, p) <==> Damaged(h.damage, p) || Damaged(rects, p) {
      DamagedAppend(h.damage, rects, p);
    }
  }

  lemma OpaqueKeeps(s: Surface, h: Declared, rects: seq<Rect>, replace: bool)
    requires PendingRegionsOk(s, h)
    ensures PendingRegionsOk(SetOpaqueRegion(s, rects, replace).0, Declare(h, s, OpaqueOp(rects, replace)))
  {
    if ClipRegionRects(rects).Success? {
      var base := if replace then [] else h.opaque_;
      ClipRegionAppend(base, rects);
      ClipRegionExact(rects, Point(0, 0));
      ExtendOpaqueExact(ClipRegion(base).value, ClipRegion(rects).value);
    }
  }

  lemma InsertAllAppends(a: seq<Rect>, b: seq<Rect>)
    requires AllWithin(a, M, M) && AllWithin(b, M, M) && |a| + |b| <= MAX_REGION_RECTS
    ensures InsertAll(RectSet(a, false), MAX_REGION_RECTS, b) == RectSet(a + b, false)
  {
    InsertAllCovers(RectSet(a, false), MAX_REGION_RECTS, b, M, M);
  }

  lemma ClippedIsWithin(rects: seq<Rect>)
    requires ClipRegion(rects).Success?
    ensures AllWithin(ClipRegion(rects).value, M, M)
  {
    ClipRegionExact(rects, Point(0, 0));
  }

  lemma InputJoins(a: seq<Rect>, b: seq<Rect>)
    ensures InputOf(a + b)
            == if EXTENT_RECT in a || EXTENT_RECT in b then WholeSurface else InputRects(RectSet(a + b, false))
    ensures InputOf(a) == if EXTENT_RECT in a then WholeSurface else InputRects(RectSet(a, false))
  {
  }

  /** What an accepted input request leaves pending. */
  lemma InputAccepted(s: Surface, rects: seq<Rect>, replace: bool)
    requires SetInputRegion(s, rects, replace).1.Success?
    ensures ClipRegion(rects).Success?
    ensures var clipped := ClipRegion(rects).value;
            var base := if replace then InputRects(EMPTY_SET) else s.pending.input;
            var after := SetInputRegion(s, rects, replace).0;
            && after == s.(pending := s.pending.(input := after.pending.input))
            && (EXTENT_RECT in clipped || base.WholeSurface? ==> after.pending.input == WholeSurface)
            && (EXTENT_RECT !in clipped && base.InputRects? ==>
                  && |base.set_.rects| + |clipped| <= MAX_REGION_RECTS
                  && after.pending.input == InputRects(InsertAll(base.set_, MAX_REGION_RECTS, clipped)))
  {
    hide ClipRegion, InsertAll;
  }

  lemma InputKeeps(s: Surface, h: Declared, rects: seq<Rect>, replace: bool)
    requires PendingRegionsOk(s, h)
    ensures PendingRegionsOk(SetInputRegion(s, rects, replace).0, Declare(h, s, InputOp(rects, replace)))
  {
    if SetInputRegion(s, rects, replace).1.Success? {
      InputAccepted(s, rects, replace);
      var base := if replace then [] else h.input;
      assert ClipRegion([]) == Success([]);
      hide ClipRegion, InsertAll, AllWithin, OpaqueOf, SetInputRegion;
      ClipRegionAppend(base, rects);
      ClippedIsWithin(rects);
      ClippedIsWithin(base);
      var old_, new_ := ClipRegion(base).value, ClipRegion(rects).value;
      InputJoins(old_, new_);
      hide InputOf;
      if EXTENT_RECT !in old_ && EXTENT_RECT !in new_ { InsertAllAppends(old_, new_); }
    } else {
      RefusedInputKeeps(s, rects, replace);
    }
  }

  lemma RefusedInputKeeps(s: Surface, rects: seq<Rect>, replace: bool)
    requires SetInputRegion(s, rects, replace).1.Failure?
    ensures SetInputRegion(s, rects, replace).0 == s
  {
    hide ClipRegion, InsertAll;
  }

  // ---- commit ----

  /** Everything a commit adds to unlatched damage, seen at one pixel of the new extent. */
  lemma CommitDamageCovers(s: Surface, h: Declared, next: Option<CommittedBuffer>)
    requires DamageOk(s, h)
    ensures var d := CommitDamage(s, next).rects;
            && AllWithin(d, SizeOf(next).width, SizeOf(next).height) && |d| <= MAX_DAMAGE_RECTS_PER_COMMIT
            && forall p: Point | InExtent(p, SizeOf(next).width, SizeOf(next).height) ::
                 ExtentOf(s.committed.buffer) != ExtentOf(next) || Damaged(h.damage, p) ==> Covers(d, p)
  {
    if next.Some? {
      var size := SizeOf(next);
      if ExtentOf(s.committed.buffer) != ExtentOf(next) {
        InsertCovers(EMPTY_SET, MAX_DAMAGE_RECTS_PER_COMMIT, Rect(0, 0, size.width, size.height), size.width,
                     size.height);
      } else {
        InsertClippedCovers(EMPTY_SET, MAX_DAMAGE_RECTS_PER_COMMIT, s.pending.damage.rects, size);
      }
    }
  }

  lemma CommitKeepsDamage(s: Surface, h: Declared, layout: BufferLayout, requestFrame: bool)
    requires DamageOk(s, h)
    ensures DamageOk(ApplyCommit(s, layout, requestFrame).0, Declare(h, s, CommitOp(layout, requestFrame)))
  {
    var next := NextBuffer(s, layout);
    var s' := ApplyCommit(s, layout, requestFrame).0;
    CommitDamageCovers(s, h, next);
    var d := CommitDamage(s, next).rects;
    InsertAllCovers(s.unlatchedDamage, MAX_DAMAGE_RECTS_PER_COMMIT, d, M, M);
    forall p: Point | s'.committed.Inside(p) && (s'.unlatchedGeometry || Damaged(h.committedDamage + h.damage, p))
      ensures Covers(s'.unlatchedDamage.rects, p)
    {
      DamagedAppend(h.committedDamage, h.damage, p);
      if ExtentOf(s.committed.buffer) == ExtentOf(next) { assert s.committed.Inside(p); }
    }
  }

  lemma CommitKeepsExtents(s: Surface, h: Declared, layout: BufferLayout, requestFrame: bool)
    requires ExtentsOk(s, h)
    ensures ExtentsOk(ApplyCommit(s, layout, requestFrame).0, Declare(h, s, CommitOp(layout, requestFrame)))
  {
    var e := ExtentOf(NextBuffer(s, layout));
    var after := h.extents + [e];
    if Resized(h.extents) {
      var i :| 0 < i < |h.extents| && h.extents[i - 1] != h.extents[i];
      assert after[i - 1] != after[i];
    }
    if ExtentOf(s.committed.buffer) != e { assert after[|h.extents| - 1] != after[|h.extents|]; }
    if Resized(after) {
      var i :| 0 < i < |after| && after[i - 1] != after[i];
      if i < |h.extents| { assert h.extents[i - 1] != h.extents[i]; }
    }
  }

  lemma CommitKeepsRegions(s: Surface, h: Declared, layout: BufferLayout, requestFrame: bool)
    requires PendingRegionsOk(s, h)
    ensures CommittedRegionsOk(ApplyCommit(s, layout, requestFrame).0, Declare(h, s, CommitOp(layout, requestFrame)))
  {
    hide InsertClipped, InsertAll, CommitDamage, ClipRegion, DamageOk, AllWithin;
    var s' := ApplyCommit(s, layout, requestFrame).0;
    var size := SizeOf(NextBuffer(s, layout));
    var opaque_, input := ClipRegion(h.opaque_).value, ClipRegion(h.input).value;
    ClipRegionExact(h.opaque_, Point(0, 0));
    ClipRegionExact(h.input, Point(0, 0));
    if |opaque_| <= MAX_REGION_RECTS { InsertClippedCovers(EMPTY_SET, MAX_REGION_RECTS, opaque_, size); }
    if s.pending.input.InputRects? { InsertClippedCovers(EMPTY_SET, MAX_REGION_RECTS, input, size); }
    forall p: Point
      ensures Covers(s'.committed.opaque_.rects, p) <==>
                s'.committed.Inside(p) && Covers(h.opaque_, p) && |opaque_| <= MAX_REGION_RECTS
    {
      ClipRegionExact(h.opaque_, p);
      WithinCovers(s'.committed.opaque_.rects, size.width, size.height, p);
    }
    forall p: Point ensures s'.committed.AcceptsInputAt(p) <==> s'.committed.Inside(p) && Covers(h.input, p) {
      ClipRegionExact(h.input, p);
      if EXTENT_RECT in input && InExtent(p, M, M) {
        var i :| 0 <= i < |input| && input[i] == EXTENT_RECT;
        assert input[i].Contains(p);
      }
    }
  }

  lemma WithinCovers(rects: seq<Rect>, w: nat, h: nat, p: Point)
    requires AllWithin(rects, w, h)
    ensures Covers(rects, p) ==> InExtent(p, w, h)
  {
  }

  // ---- runs ----

  lemma LatchKeeps(s: Surface, h: Declared)
    requires SurfaceOk(s, h)
    ensures SurfaceOk(LatchSurface(s).0, Declare(h, s, LatchOp))
  {
    hide ClipRegion, OpaqueOf, InputOf, InsertClipped;
  }

  lemma StepKeepsSurface(s: Surface, h: Declared, op: SurfaceOp)
    requires SurfaceOk(s, h)
    ensures SurfaceOk(SurfaceStep(s, op), Declare(h, s, op))
  {
    hide ClipRegion, OpaqueOf, InputOf, Covers, Damaged, Resized, AllWithin;
    hide InsertClipped, InsertAll, ExtendOpaque, DamageSet, ClipRegionRects, CommitDamage, LatchSurface;
    match op
    case LatchOp => LatchKeeps(s, h);
    case DamageOp(rects) => DamageKeeps(s, h, rects);
    case OpaqueOp(rects, replace) => OpaqueKeeps(s, h, rects, replace);
    case InputOp(rects, replace) => InputKeeps(s, h, rects, replace);
    case CommitOp(layout, requestFrame) =>
      CommitKeepsDamage(s, h, layout, requestFrame);
      CommitKeepsExtents(s, h, layout, requestFrame);
      CommitKeepsRegions(s, h, layout, requestFrame);
    case _ =>
  }

  lemma NewSurfaceOk()
    ensures SurfaceOk(NEW_SURFACE, NOTHING_DECLARED)
  {
    hide DamageOk, ExtentsOk, PendingRegionsOk, CommittedRegionsOk;
    NewDamageOk();
    NewPendingRegionsOk();
    NewCommittedRegionsOk();
  }

  lemma NewDamageOk()
    ensures DamageOk(NEW_SURFACE, NOTHING_DECLARED) && ExtentsOk(NEW_SURFACE, NOTHING_DECLARED)
  {
  }

  lemma NewPendingRegionsOk()
    ensures PendingRegionsOk(NEW_SURFACE, NOTHING_DECLARED)
  {
    ClipWhole();
    hide ClipRegion;
    assert EXTENT_RECT in [EXTENT_RECT];
  }

  lemma ClipWhole()
    ensures ClipRegion([]) == Success([]) && ClipRegion([EXTENT_RECT]) == Success([EXTENT_RECT])
  {
    ClipExtent();
    ClipOne(EXTENT_RECT, EXTENT_RECT);
  }

  lemma ClipOne(r: Rect, c: Rect)
    requires ClipTo(r, EXTENT_SIZE) == Success(Some(c))
    ensures ClipRegion([r]) == Success([c])
  {
    hide ClipTo;
    var one, none: seq<Rect> := [r], [];
    assert one[..|one| - 1] == none && ClipRegion(none) == Success(none);
    assert none + [c] == [c];
  }

  lemma ClipExtent()
    ensures ClipTo(EXTENT_RECT, EXTENT_SIZE) == Success(Some(EXTENT_RECT))
  {
  }

  lemma NewCommittedRegionsOk()
    ensures CommittedRegionsOk(NEW_SURFACE, NOTHING_DECLARED)
  {
    ClipWhole();
    hide ClipRegion;
  }

  lemma {:induction false} EveryRunKeepsSurface(ops: seq<SurfaceOp>)
    ensures SurfaceOk(SurfaceRun(ops), DeclaredBy(ops))
  {
    if ops == [] {
      NewSurfaceOk();
    } else {
      var before := ops[..|ops| - 1];
      EveryRunKeepsSurface(before);
      StepKeepsSurface(SurfaceRun(before), DeclaredBy(before), ops[|ops| - 1]);
    }
  }

  /** After any run, latching hands over damage inside the committed extent that covers every
      pixel damaged by a commit since the last latch, and the whole extent after a resize. */
  lemma LatchCoversDamage(ops: seq<SurfaceOp>, p: Point)
    ensures var s := SurfaceRun(ops);
            var h := DeclaredBy(ops);
            var l := LatchSurface(s).1;
            && AllWithin(l.damage.rects, s.committed.Size().width, s.committed.Size().height)
            && |l.damage.rects| <= MAX_DAMAGE_RECTS_PER_COMMIT
            && (l.geometryChanged <==> Resized(h.extents))
            && (s.committed.Inside(p) && (Damaged(h.committedDamage, p) || Resized(h.extents)) ==>
                  Covers(l.damage.rects, p))
  {
    EveryRunKeepsSurface(ops);
    var s := SurfaceRun(ops);
    if s.committed.buffer.Some? {
      InsertClippedCovers(EMPTY_SET, MAX_DAMAGE_RECTS_PER_COMMIT, s.unlatchedDamage.rects, s.committed.Size());
    }
  }

  /** After any run, an opaque pixel was declared opaque since the last replacement; and unless
      more than the limit of rectangles was declared, every declared pixel inside is opaque. */
  lemma OpaqueIsDeclared(ops: seq<SurfaceOp>, p: Point)
    ensures var s := SurfaceRun(ops);
            var declared := DeclaredBy(ops).committedOpaque;
            && ClipRegion(declared).Success?
            && (Covers(s.committed.opaque_.rects, p) <==>
                  s.committed.Inside(p) && Covers(declared, p) && |ClipRegion(declared).value| <= MAX_REGION_RECTS)
  {
    EveryRunKeepsSurface(ops);
  }

  /** After any run, the hit test accepts exactly the points inside the surface that some
      declared input rectangle contains. */
  lemma HitTestIsExact(ops: seq<SurfaceOp>, p: Point)
    ensures var s := SurfaceRun(ops);
            s.committed.AcceptsInputAt(p) <==> s.committed.Inside(p) && Covers(DeclaredBy(ops).committedInput, p)
  {
    EveryRunKeepsSurface(ops);
  }

  // ---- frame callbacks ----

  function Arms(s: Surface, op: SurfaceOp): nat {
    Bit(op.CommitOp? && ApplyCommit(s, op.layout, op.requestFrame).1.frameArmed)
  }

  function Fires(s: Surface, op: SurfaceOp): nat {
    Bit(op.CompleteOp? && PresentCompleted(s, op.completedSeq).1)
  }

  function ArmsIn(ops: seq<SurfaceOp>): nat {
    if ops == [] then 0 else ArmsIn(ops[..|ops| - 1]) + Arms(SurfaceRun(ops[..|ops| - 1]), ops[|ops| - 1])
  }

  function FiresIn(ops: seq<SurfaceOp>): nat {
    if ops == [] then 0 else FiresIn(ops[..|ops| - 1]) + Fires(SurfaceRun(ops[..|ops| - 1]), ops[|ops| - 1])
  }

  lemma StepFrames(s: Surface, op: SurfaceOp)
    ensures Bit(!s.frame.Idle?) + Arms(s, op) == Fires(s, op) + Bit(!SurfaceStep(s, op).frame.Idle?)
    ensures Fires(s, op) == 1 ==> s.frame.AwaitingPresent? && s.frame.presentSeq <= op.completedSeq
  {
    hide ClipRegion, InsertClipped, InsertAll, ExtendOpaque, DamageSet, ClipRegionRects, CommitDamage, CommittedOpaque,
         CommittedRegion;
  }

  /** Over every run each armed frame callback fires once, or is the one still pending. */
  lemma {:induction false} FramesFireOnce(ops: seq<SurfaceOp>)
    ensures ArmsIn(ops) == FiresIn(ops) + Bit(!SurfaceRun(ops).frame.Idle?)
  {
    hide SurfaceStep, Arms, Fires;
    if ops != [] {
      FramesFireOnce(ops[..|ops| - 1]);
      StepFrames(SurfaceRun(ops[..|ops| - 1]), ops[|ops| - 1]);
    }
  }
}
