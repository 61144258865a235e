/** The buffer tracker and surface state as the compositor updates them in place. */
module SurfaceEngine {
  import opened Wrappers
  import opened Counting
  import opened Geometry
  import opened Tracker
  import opened Surfaces
  import opened Window
  import opened Connection

  class BufferTracker {
    const entries: array<Option<Tracked>>

    constructor (capacity: nat)
      ensures fresh(entries) && entries[..] == NewConn(capacity).entries
    {
      entries := new Option<Tracked>[capacity](_ => None);
    }

    /** The first entry that satisfies `p`, or the capacity. */
    method Position(p: Option<Tracked> -> bool) returns (k: nat)
      ensures k == FindFirst(entries[..], p)
    {
      k := 0;
      while k < entries.Length && !p(entries[k])
        invariant k <= entries.Length
        invariant forall j :: 0 <= j < k ==> !p(entries[j])
      {
        k := k + 1;
      }
    }

    method FindSurface(surface: SurfaceId) returns (k: nat)
      ensures k == Find(entries[..], surface)
    {
      k := Position(ForSurface(surface));
    }

    method BufferIsBusy(b: BufferId) returns (busy: bool)
      ensures busy == IsBusy(entries[..], b)
    {
      var k := Position(Holding(b));
      busy := k < entries.Length;
    }

    method CheckAttach(surface: SurfaceId, pending: PendingBuffer) returns (r: Result<(), TrackerError>)
      ensures r == CheckCommit(entries[..], surface, pending)
    {
      if pending.Attach? {
        var busy := BufferIsBusy(pending.buffer);
        if busy { return Failure(BufferBusy); }
        var own := FindSurface(surface);
        var unused := Position(UNUSED);
        if own == entries.Length && unused == entries.Length { return Failure(LimitExceeded); }
      }
      r := Success(());
    }

    /** The superseded buffer, or the error that left the tracker unchanged. */
    method CommitBuffer(surface: SurfaceId, pending: PendingBuffer) returns (r: Result<Option<BufferId>, TrackerError>)
      modifies entries
      ensures match Commit(old(entries[..]), surface, pending)
              case Failure(e) => r == Failure(e) && entries[..] == old(entries[..])
              case Success((after, released)) => r == Success(released) && entries[..] == after
    {
      hide IsBusy;
      var check := CheckAttach(surface, pending);
      if check.Failure? { return Failure(check.error); }
      match pending
      case Unchanged => r := Success(None);
      case Attach(b) =>
        var k := FindSurface(surface);
        if k == entries.Length {
          k := Position(UNUSED);
          entries[k] := Some(Tracked(surface, None, NoLatest));
        }
        var t := entries[k].value;
        entries[k] := Some(t.(latest := LatestBuffer(b)));
        r := Success(LatestOf(t));
      case Detach =>
        var k := FindSurface(surface);
        if k == entries.Length { return Success(None); }
        var t := entries[k].value;
        entries[k] := if t.current.Some? then Some(t.(latest := LatestDetach)) else None;
        r := Success(LatestOf(t));
    }

    method Promote(surface: SurfaceId) returns (released: Option<BufferId>)
      modifies entries
      ensures (entries[..], released) == Composited(old(entries[..]), surface)
    {
      var k := FindSurface(surface);
      if k == entries.Length { return None; }
      var t := entries[k].value;
      match t.latest
      case NoLatest => released := None;
      case LatestBuffer(b) =>
        released := t.current;
        entries[k] := Some(Tracked(t.surface, Some(b), NoLatest));
      case LatestDetach =>
        released := t.current;
        entries[k] := None;
    }

    method Remove(surface: SurfaceId) returns (current: Option<BufferId>, latest: Option<BufferId>)
      modifies entries
      ensures (entries[..], current, latest) == RemoveSurface(old(entries[..]), surface)
    {
      var k := FindSurface(surface);
      if k == entries.Length { return None, None; }
      var t := entries[k].value;
      entries[k] := None;
      return t.current, LatestOf(t);
    }
  }

  // ---- folds over rectangles ----

  method ClipInto(base: RectSet, capacity: nat, rects: seq<Rect>, size: Size) returns (out: RectSet)
    requires capacity > 0
    ensures out == InsertClipped(base, capacity, rects, size)
  {
    out := base;
    for i := 0 to |rects|
      invariant out == InsertClipped(base, capacity, rects[..i], size)
    {
      assert rects[..i + 1][..i] == rects[..i];
      var clipped := ClipTo(rects[i], size);
      if clipped.Success? && clipped.value.Some? {
        var inserted := InsertRect(out, capacity, clipped.value.value);
        if inserted.Success? { out := inserted.value; }
      }
    }
    assert rects[..|rects|] == rects;
  }

  method InsertEach(base: RectSet, capacity: nat, rects: seq<Rect>) returns (out: RectSet)
    requires capacity > 0
    ensures out == InsertAll(base, capacity, rects)
  {
    out := base;
    for i := 0 to |rects|
      invariant out == InsertAll(base, capacity, rects[..i])
    {
      assert rects[..i + 1][..i] == rects[..i];
      var inserted := InsertRect(out, capacity, rects[i]);
      if inserted.Success? { out := inserted.value; }
    }
    assert rects[..|rects|] == rects;
  }

  lemma {:induction false} DamageFailsOnwards(base: RectSet, rects: seq<BufferRect>, k: nat)
    requires k <= |rects| && DamageSet(base, rects[..k]).Failure?
    ensures DamageSet(base, rects) == DamageSet(base, rects[..k])
    decreases |rects|
  {
    if k < |rects| {
      assert rects[..|rects| - 1][..k] == rects[..k];
      DamageFailsOnwards(base, rects[..|rects| - 1], k);
    } else {
      assert rects[..k] == rects;
    }
  }

  lemma {:induction false} ClipFailsOnwards(rects: seq<Rect>, k: nat)
    requires k <= |rects| && ClipRegion(rects[..k]).Failure?
    ensures ClipRegion(rects) == ClipRegion(rects[..k])
    decreases |rects|
  {
    if k < |rects| {
      assert rects[..|rects| - 1][..k] == rects[..k];
      ClipFailsOnwards(rects[..|rects| - 1], k);
    } else {
      assert rects[..k] == rects;
    }
  }

  method ClipRects(rects: seq<Rect>) returns (r: Result<seq<Rect>, ProtocolError>)
    ensures r == ClipRegionRects(rects)
  {
    if |rects| > REGION_RECTS_PER_FRAME { return Failure(InvalidRegion); }
    var kept: seq<Rect> := [];
    for i := 0 to |rects|
      invariant ClipRegion(rects[..i]) == Success(kept)
    {
      assert rects[..i + 1][..i] == rects[..i];
      var clipped := ClipTo(rects[i], EXTENT_SIZE);
      if clipped.Failure? {
        ClipFailsOnwards(rects, i + 1);
        return Failure(InvalidRegion);
      }
      if clipped.value.Some? { kept := kept + [clipped.value.value]; }
    }
    assert rects[..|rects|] == rects;
    r := Success(kept);
  }

  lemma {:induction false} DegradedStays(base: OpaqueRegion, clipped: seq<Rect>, k: nat)
    requires k <= |clipped| && ExtendOpaque(base, clipped[..k]).Degraded?
    ensures ExtendOpaque(base, clipped).Degraded?
    decreases |clipped|
  {
    if k < |clipped| {
      assert clipped[..|clipped| - 1][..k] == clipped[..k];
      DegradedStays(base, clipped[..|clipped| - 1], k);
    } else {
      assert clipped[..k] == clipped;
    }
  }

  method Extend(base: OpaqueRegion, clipped: seq<Rect>) returns (r: OpaqueRegion)
    ensures r == ExtendOpaque(base, clipped)
  {
    if base.Degraded? {
      DegradedStays(base, clipped, 0);
      return Degraded;
    }
    var set_ := base.set_;
    for i := 0 to |clipped|
      invariant ExtendOpaque(base, clipped[..i]) == OpaqueRects(set_)
    {
      assert clipped[..i + 1][..i] == clipped[..i];
      if |set_.rects| == MAX_REGION_RECTS {
        DegradedStays(base, clipped, i + 1);
        return Degraded;
      }
      var inserted := InsertRect(set_, MAX_REGION_RECTS, clipped[i]);
      if inserted.Success? { set_ := inserted.value; }
    }
    assert clipped[..|clipped|] == clipped;
    r := OpaqueRects(set_);
  }

  /** Whether a commit with this acknowledgement may proceed; nothing changes yet. */
  method WindowAllows(window: ConfigureState?, ack: Option<u32>) returns (r: Result<(), ProtocolError>)
    requires window != null ==> window.Valid()
    ensures match CheckWindow(if window == null then None else Some(window.Value()), ack)
            case Failure(e) => r == Failure(e)
            case Success(w) =>
              && r == Success(())
              && (window != null ==>
                    w == Some(if ack.None? then window.Value() else Acknowledge(window.Value(), ack.value).value))
  {
    if window == null { return if ack.Some? then Failure(SerialMismatch) else Success(()); }
    if ack.None? { return if window.acked.None? then Failure(NotConfigured) else Success(()); }
    var k := window.Find(ack.value);
    r := if k == window.len then Failure(SerialMismatch) else Success(());
  }

  // ---- the surface ----

  class SurfaceState {
    var pending: PendingState
    var committed: CommittedState
    var frame: FrameState
    var unlatchedDamage: RectSet
    var unlatchedGeometry: bool

    function Value(): Surface
      reads this
    {
      Surface(pending, committed, frame, unlatchedDamage, unlatchedGeometry)
    }

    constructor ()
      ensures Value() == NEW_SURFACE
    {
      pending := NEW_SURFACE.pending;
      committed := NEW_SURFACE.committed;
      frame := Idle;
      unlatchedDamage := EMPTY_SET;
      unlatchedGeometry := false;
    }

    method Attach(buffer: Option<BufferId>, scale: nat, tracker: BufferTracker) returns (r: Result<(), ProtocolError>)
      modifies `pending
      ensures (Value(), r) == AttachBuffer(old(Value()), buffer, scale, tracker.entries[..])
    {
      if scale != SCALE_ONE { return Failure(InvalidScale); }
      if buffer.Some? {
        var busy := tracker.BufferIsBusy(buffer.value);
        if busy { return Failure(BusyBuffer); }
      }
      pending := pending.(buffer := if buffer.Some? then PendingBuffer.Attach(buffer.value) else Detach);
      pending := pending.(scale := scale);
      r := Success(());
    }

    method AddDamage(rects: seq<BufferRect>) returns (r: Result<(), ProtocolError>)
      modifies `pending
      ensures (Value(), r) == Damage(old(Value()), rects)
    {
      if |rects| > DAMAGE_RECTS_PER_FRAME { return Failure(InvalidDamage); }
      var damage := pending.damage;
      for i := 0 to |rects|
        invariant pending == old(pending)
        invariant DamageSet(pending.damage, rects[..i]) == Success(damage)
      {
        assert rects[..i + 1][..i] == rects[..i];
        var clipped := ClipToExtent(rects[i], MAX_SURFACE_EXTENT, MAX_SURFACE_EXTENT);
        if clipped.Some? {
          var inserted := InsertRect(damage, MAX_DAMAGE_RECTS_PER_COMMIT, clipped.value.ToRect());
          if inserted.Failure? {
            DamageFailsOnwards(pending.damage, rects, i + 1);
            return Failure(InvalidDamage);
          }
          damage := inserted.value;
        }
      }
      assert rects[..|rects|] == rects;
      pending := pending.(damage := damage);
      r := Success(());
    }

    method SetOpaque(rects: seq<Rect>, replace: bool) returns (r: Result<(), ProtocolError>)
      modifies `pending
      ensures (Value(), r) == SetOpaqueRegion(old(Value()), rects, replace)
    {
      var clipped := ClipRects(rects);
      if clipped.Failure? { return Failure(clipped.error); }
      var extended := Extend(if replace then OpaqueRects(EMPTY_SET) else pending.opaque_, clipped.value);
      pending := pending.(opaque_ := extended);
      r := Success(());
    }

    method SetInput(rects: seq<Rect>, replace: bool) returns (r: Result<(), ProtocolError>)
      modifies `pending
      ensures (Value(), r) == SetInputRegion(old(Value()), rects, replace)
    {
      var clipped := ClipRects(rects);
      if clipped.Failure? { return Failure(clipped.error); }
      if EXTENT_RECT in clipped.value {
        pending := pending.(input := WholeSurface);
        return Success(());
      }
      var base := if replace then InputRects(EMPTY_SET) else pending.input;
      match base {
        case WholeSurface => pending := pending.(input := WholeSurface);
        case InputRects(set_) =>
          if |set_.rects| + |clipped.value| > MAX_REGION_RECTS { return Failure(InvalidRegion); }
          var all := InsertEach(set_, MAX_REGION_RECTS, clipped.value);
          pending := pending.(input := InputRects(all));
      }
      r := Success(());
    }

    /** The part of a commit after every check has passed. */
    method Apply(layout: BufferLayout, requestFrame: bool) returns (outcome: CommitOutcome)
      modifies this
      ensures (Value(), outcome) == ApplyCommit(old(Value()), layout, requestFrame)
    {
      hide InsertClipped, InsertAll;
      var identityChanged := match pending.buffer
        case Unchanged => false
        case Detach => committed.buffer.Some?
        case Attach(id) => committed.buffer.None? || committed.buffer.value.id != id;
      var next := NextBuffer(Value(), layout);
      var changed := ExtentOf(committed.buffer) != ExtentOf(next);
      var size := SizeOf(next);
      var damage := EMPTY_SET;
      if next.Some? {
        if changed {
          var inserted := InsertRect(damage, MAX_DAMAGE_RECTS_PER_COMMIT, Rect(0, 0, size.width, size.height));
          if inserted.Success? { damage := inserted.value; }
        } else {
          damage := ClipInto(damage, MAX_DAMAGE_RECTS_PER_COMMIT, pending.damage.rects, size);
        }
      }
      unlatchedDamage := InsertEach(unlatchedDamage, MAX_DAMAGE_RECTS_PER_COMMIT, damage.rects);
      unlatchedGeometry := unlatchedGeometry || changed;

      var opaque_ := EMPTY_SET;
      if pending.opaque_.OpaqueRects? {
        opaque_ := ClipInto(EMPTY_SET, MAX_REGION_RECTS, pending.opaque_.set_.rects, size);
      }
      var input := WholeSurface;
      if pending.input.InputRects? {
        var set_ := ClipInto(EMPTY_SET, MAX_REGION_RECTS, pending.input.set_.rects, size);
        input := InputRects(set_);
      }
      committed := CommittedState(next, pending.scale, opaque_, input, committed.commitCount + 1);
      pending := pending.(buffer := Unchanged, damage := EMPTY_SET);
      var armed := requestFrame && frame == Idle;
      if armed { frame := Armed; }
      outcome := CommitOutcome(armed, changed || damage.rects != [] || requestFrame || identityChanged);
    }

    /** Commit under the tracker and, when there is one, the window. A refusal changes nothing. */
    method CommitPending(surface: SurfaceId, request: CommitRequest, tracker: BufferTracker, window: ConfigureState?,
                         resolved: Result<BufferLayout, ProtocolError>)
      returns (r: Result<(Option<BufferId>, Option<u32>, CommitOutcome), ProtocolError>)
      requires window != null ==> window.Valid()
      requires window != null ==> tracker.entries as object != window.outstanding
      modifies this, tracker.entries, window, if window == null then {} else {window.outstanding}
      ensures window != null ==> window.Valid()
      ensures match CommitSurface(old(Value()), old(tracker.entries[..]), surface, request,
                                  if window == null then None else Some(old(window.Value())), resolved)
              case Failure(e) =>
                && r == Failure(e) && Value() == old(Value()) && tracker.entries[..] == old(tracker.entries[..])
                && (window != null ==> window.Value() == old(window.Value()))
              case Success(a) =>
                && r == Success((a.released, a.acked, a.outcome)) && Value() == a.surface
                && tracker.entries[..] == a.entries
                && (window != null ==> a.window == Some(window.Value()))
    {
      hide ApplyCommit, Commit, CheckCommit;
      var allowed := WindowAllows(window, request.ack);
      if allowed.Failure? { return Failure(allowed.error); }
      if pending.buffer.Attach? && resolved.Failure? { return Failure(resolved.error); }
      CommitFailsIff(tracker.entries[..], surface, pending.buffer);
      var check := tracker.CheckAttach(surface, pending.buffer);
      if check.Failure? { return Failure(if check.error == BufferBusy then BusyBuffer else TooMany); }
      if window != null && request.ack.Some? {
        var acked := window.Ack(request.ack.value);
      }
      var released := tracker.CommitBuffer(surface, pending.buffer);
      var outcome := Apply(if pending.buffer.Attach? then resolved.value else NO_LAYOUT, request.requestFrame);
      r := Success((released.value, request.ack, outcome));
    }

    method LatchFor(surface: SurfaceId, tracker: BufferTracker) returns (released: Option<BufferId>, latched: Latched)
      modifies `unlatchedDamage, `unlatchedGeometry, tracker.entries
      ensures (Value(), latched) == LatchSurface(old(Value()))
      ensures (tracker.entries[..], released) == Composited(old(tracker.entries[..]), surface)
    {
      var size := committed.Size();
      var damage := EMPTY_SET;
      if size.width > 0 && size.height > 0 {
        damage := ClipInto(damage, MAX_DAMAGE_RECTS_PER_COMMIT, unlatchedDamage.rects, size);
      }
      released := tracker.Promote(surface);
      latched := Latched(damage, unlatchedGeometry);
      unlatchedDamage := EMPTY_SET;
      unlatchedGeometry := false;
    }

    method Submitted(presentSeq: nat) returns (moved: bool)
      modifies `frame
      ensures (Value(), moved) == FrameSubmitted(old(Value()), presentSeq)
    {
      moved := frame == Armed;
      if moved { frame := AwaitingPresent(presentSeq); }
    }

    method Completed(completedSeq: nat) returns (fired: bool)
      modifies `frame
      ensures (Value(), fired) == PresentCompleted(old(Value()), completedSeq)
    {
      fired := frame.AwaitingPresent? && completedSeq >= frame.presentSeq;
      if fired { frame := Idle; }
    }
  }

  lemma CommitFailsIff(entries: Entries, surface: SurfaceId, pending: PendingBuffer)
    ensures match CheckCommit(entries, surface, pending)
            case Failure(e) => Commit(entries, surface, pending) == Failure(e)
            case Success(_) => Commit(entries, surface, pending).Success?
  {
  }
}
