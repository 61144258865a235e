/** Double-buffered surface state: pending, committed, and damage accumulated between latches. */
module Surfaces {
  import opened Wrappers
  import opened Geometry
  import opened Tracker

  const MAX_DAMAGE_RECTS_PER_COMMIT: nat := 16
  const MAX_REGION_RECTS: nat := 8
  const DAMAGE_RECTS_PER_FRAME: nat := 5
  const REGION_RECTS_PER_FRAME: nat := 3
  const SCALE_ONE: nat := 120

  const EXTENT_SIZE := Size(MAX_SURFACE_EXTENT, MAX_SURFACE_EXTENT)
  const EXTENT_RECT := Rect(0, 0, MAX_SURFACE_EXTENT, MAX_SURFACE_EXTENT)

  datatype ProtocolError =
    | InvalidScale | BusyBuffer | TooMany | InvalidDamage | InvalidRegion | NotConfigured | SerialMismatch
    | Unresolved | InvalidLayout | UnsupportedFeature

  /** A validated layout has both axes between 1 and the extent limit. */
  type Extent = n: nat | 1 <= n <= MAX_SURFACE_EXTENT witness 1

  datatype BufferLayout = BufferLayout(width: Extent, height: Extent)

  datatype CommittedBuffer = CommittedBuffer(id: BufferId, layout: BufferLayout)

  datatype OpaqueRegion = OpaqueRects(set_: RectSet) | Degraded

  datatype InputRegion = WholeSurface | InputRects(set_: RectSet)

  datatype PendingState = PendingState(buffer: PendingBuffer, scale: nat, damage: RectSet, opaque_: OpaqueRegion,
                                       input: InputRegion)

  datatype CommittedState = CommittedState(buffer: Option<CommittedBuffer>, scale: nat, opaque_: RectSet,
                                           input: InputRegion, commitCount: nat)
  {
    /** `0 x 0` when unmapped. */
    function Size(): Size {
      match buffer
      case Some(b) => Geometry.Size(b.layout.width, b.layout.height)
      case None => Geometry.Size(0, 0)
    }

    predicate Inside(p: Point) {
      0 <= p.x < Size().width && 0 <= p.y < Size().height
    }

    /** Hit test: inside the extent and the committed input region. */
    predicate AcceptsInputAt(p: Point) {
      Inside(p) && (input.WholeSurface? || Covers(input.set_.rects, p))
    }
  }

  datatype FrameState = Idle | Armed | AwaitingPresent(presentSeq: nat)

  datatype Surface = Surface(pending: PendingState, committed: CommittedState, frame: FrameState,
                             unlatchedDamage: RectSet, unlatchedGeometry: bool)

  const NEW_SURFACE := Surface(
    PendingState(Unchanged, SCALE_ONE, EMPTY_SET, OpaqueRects(EMPTY_SET), WholeSurface),
    CommittedState(None, SCALE_ONE, EMPTY_SET, WholeSurface, 0),
    Idle, EMPTY_SET, false)

  // ---- folding rectangles into sets ----

  /** Inserts, ignoring a failure as the source does. */
  function InsertQuietly(set_: RectSet, capacity: nat, r: Rect): RectSet
    requires capacity > 0
  {
    match Insert(set_, capacity, r) case Success(s) => s case Failure(_) => set_
  }

  /** `base` with the part of each rectangle that lies inside `size`. */
  function InsertClipped(base: RectSet, capacity: nat, rects: seq<Rect>, size: Size): RectSet
    requires capacity > 0
  {
    if rects == [] then base
    else
      var before := InsertClipped(base, capacity, rects[..|rects| - 1], size);
      match ClipTo(rects[|rects| - 1], size)
      case Success(Some(c)) => InsertQuietly(before, capacity, c)
      case _ => before
  }

  function InsertAll(base: RectSet, capacity: nat, rects: seq<Rect>): RectSet
    requires capacity > 0
  {
    if rects == [] then base
    else InsertQuietly(InsertAll(base, capacity, rects[..|rects| - 1]), capacity, rects[|rects| - 1])
  }

  // ---- requests ----

  function AttachBuffer(s: Surface, buffer: Option<BufferId>, scale: nat, entries: Entries)
    : (Surface, Result<(), ProtocolError>)
  {
    if scale != SCALE_ONE then (s, Failure(InvalidScale))
    else if buffer.Some? && IsBusy(entries, buffer.value) then (s, Failure(BusyBuffer))
    else
      var p := s.pending.(buffer := if buffer.Some? then Attach(buffer.value) else Detach, scale := scale);
      (s.(pending := p), Success(()))
  }

  /** Pending damage with each client rectangle clipped to the extent square. */
  function DamageSet(base: RectSet, rects: seq<BufferRect>): Result<RectSet, GeometryError> {
    if rects == [] then Success(base)
    else
      match DamageSet(base, rects[..|rects| - 1])
      case Failure(e) => Failure(e)
      case Success(before) =>
        match ClipToExtent(rects[|rects| - 1], MAX_SURFACE_EXTENT, MAX_SURFACE_EXTENT)
        case None => Success(before)
        case Some(c) => Insert(before, MAX_DAMAGE_RECTS_PER_COMMIT, c.ToRect())
  }

  function Damage(s: Surface, rects: seq<BufferRect>): (Surface, Result<(), ProtocolError>) {
    if |rects| > DAMAGE_RECTS_PER_FRAME then (s, Failure(InvalidDamage))
    else
      match DamageSet(s.pending.damage, rects)
      case Failure(_) => (s, Failure(InvalidDamage))
      case Success(d) => (s.(pending := s.pending.(damage := d)), Success(()))
  }

  /** The non-empty clipped rectangles, in order; a rectangle that overflows fails them all. */
  function ClipRegion(rects: seq<Rect>): Result<seq<Rect>, ProtocolError> {
    if rects == [] then Success([])
    else
      match ClipRegion(rects[..|rects| - 1])
      case Failure(e) => Failure(e)
      case Success(before) =>
        match ClipTo(rects[|rects| - 1], EXTENT_SIZE)
        case Failure(_) => Failure(InvalidRegion)
        case Success(None) => Success(before)
        case Success(Some(c)) => Success(before + [c])
  }

  function ClipRegionRects(rects: seq<Rect>): Result<seq<Rect>, ProtocolError> {
    if |rects| > REGION_RECTS_PER_FRAME then Failure(InvalidRegion) else ClipRegion(rects)
  }

  /** Appends to an opaque set until it is full; one more degrades the region. */
  function ExtendOpaque(base: OpaqueRegion, clipped: seq<Rect>): OpaqueRegion {
    if clipped == [] then base
    else
      match ExtendOpaque(base, clipped[..|clipped| - 1])
      case Degraded => Degraded
      case OpaqueRects(set_) =>
        if |set_.rects| == MAX_REGION_RECTS then Degraded
        else OpaqueRects(InsertQuietly(set_, MAX_REGION_RECTS, clipped[|clipped| - 1]))
  }

  function SetOpaqueRegion(s: Surface, rects: seq<Rect>, replace: bool): (Surface, Result<(), ProtocolError>) {
    match ClipRegionRects(rects)
    case Failure(e) => (s, Failure(e))
    case Success(clipped) =>
      var base := if replace then OpaqueRects(EMPTY_SET) else s.pending.opaque_;
      (s.(pending := s.pending.(opaque_ := ExtendOpaque(base, clipped))), Success(()))
  }

  function SetInputRegion(s: Surface, rects: seq<Rect>, replace: bool): (Surface, Result<(), ProtocolError>) {
    match ClipRegionRects(rects)
    case Failure(e) => (s, Failure(e))
    case Success(clipped) =>
      if EXTENT_RECT in clipped then (s.(pending := s.pending.(input := WholeSurface)), Success(()))
      else
        match (if replace then InputRects(EMPTY_SET) else s.pending.input)
        case WholeSurface => (s.(pending := s.pending.(input := WholeSurface)), Success(()))
        case InputRects(set_) =>
          if |set_.rects| + |clipped| > MAX_REGION_RECTS then (s, Failure(InvalidRegion))
          else
            (s.(pending := s.pending.(input := InputRects(InsertAll(set_, MAX_REGION_RECTS, clipped)))), Success(()))
  }

  // ---- commit and latch ----

  datatype CommitOutcome = CommitOutcome(frameArmed: bool, scheduleComposite: bool)

  /** The buffer a commit leaves committed. */
  function NextBuffer(s: Surface, layout: BufferLayout): Option<CommittedBuffer> {
    match s.pending.buffer
    case Unchanged => s.committed.buffer
    case Detach => None
    case Attach(id) => Some(CommittedBuffer(id, layout))
  }

  function ExtentOf(b: Option<CommittedBuffer>): Option<(Extent, Extent)> {
    match b case None => None case Some(c) => Some((c.layout.width, c.layout.height))
  }

  function SizeOf(b: Option<CommittedBuffer>): Size {
    match b case None => Size(0, 0) case Some(c) => Size(c.layout.width, c.layout.height)
  }

  /** The damage of one commit: everything after a geometry change, else what was declared. */
  function CommitDamage(s: Surface, next: Option<CommittedBuffer>): RectSet {
    if next.None? then EMPTY_SET
    else if ExtentOf(s.committed.buffer) != ExtentOf(next) then
      InsertQuietly(EMPTY_SET, MAX_DAMAGE_RECTS_PER_COMMIT, Rect(0, 0, SizeOf(next).width, SizeOf(next).height))
    else InsertClipped(EMPTY_SET, MAX_DAMAGE_RECTS_PER_COMMIT, s.pending.damage.rects, SizeOf(next))
  }

  function CommittedRegion(r: InputRegion, size: Size): InputRegion {
    match r
    case WholeSurface => WholeSurface
    case InputRects(set_) => InputRects(InsertClipped(EMPTY_SET, MAX_REGION_RECTS, set_.rects, size))
  }

  function CommittedOpaque(r: OpaqueRegion, size: Size): RectSet {
    match r
    case Degraded => EMPTY_SET
    case OpaqueRects(set_) => InsertClipped(EMPTY_SET, MAX_REGION_RECTS, set_.rects, size)
  }

  /** The part of a commit that cannot fail. */
  function ApplyCommit(s: Surface, layout: BufferLayout, requestFrame: bool): (Surface, CommitOutcome) {
    var next := NextBuffer(s, layout);
    var size := SizeOf(next);
    var changed := ExtentOf(s.committed.buffer) != ExtentOf(next);
    var damage := CommitDamage(s, next);
    var identity := match s.pending.buffer
      case Unchanged => false
      case Detach => s.committed.buffer.Some?
      case Attach(id) => s.committed.buffer.None? || s.committed.buffer.value.id != id;
    var armed := requestFrame && s.frame.Idle?;
    var committed := CommittedState(next, s.pending.scale, CommittedOpaque(s.pending.opaque_, size),
                                    CommittedRegion(s.pending.input, size), s.committed.commitCount + 1);
    var pending := s.pending.(buffer := Unchanged, damage := EMPTY_SET);
    (Surface(pending, committed, if armed then Armed else s.frame,
             InsertAll(s.unlatchedDamage, MAX_DAMAGE_RECTS_PER_COMMIT, damage.rects), s.unlatchedGeometry || changed),
     CommitOutcome(armed, changed || damage.rects != [] || requestFrame || identity))
  }

  datatype Latched = Latched(damage: RectSet, geometryChanged: bool)

  /** Composition starts: accumulated damage is handed over, clipped to the committed size. */
  function LatchSurface(s: Surface): (Surface, Latched) {
    var size := s.committed.Size();
    var damage := if size.width > 0 && size.height > 0
      then InsertClipped(EMPTY_SET, MAX_DAMAGE_RECTS_PER_COMMIT, s.unlatchedDamage.rects, size) else EMPTY_SET;
    (s.(unlatchedDamage := EMPTY_SET, unlatchedGeometry := false), Latched(damage, s.unlatchedGeometry))
  }

  // ---- frame callbacks ----

  function FrameSubmitted(s: Surface, presentSeq: nat): (Surface, bool) {
    if s.frame.Armed? then (s.(frame := AwaitingPresent(presentSeq)), true) else (s, false)
  }

  function PresentCompleted(s: Surface, completedSeq: nat): (Surface, bool) {
    if s.frame.AwaitingPresent? && completedSeq >= s.frame.presentSeq then (s.(frame := Idle), true) else (s, false)
  }
}
