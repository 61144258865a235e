/** All surfaces of one client connection over the shared busy-buffer tracker. */
module Connection {
  import opened Wrappers
  import opened Counting
  import opened Geometry
  import opened Tracker
  import opened Surfaces
  import opened Window

  // ---- one commit ----

  datatype CommitRequest = CommitRequest(requestFrame: bool, ack: Option<u32>)

  /** What an accepted commit leaves behind. */
  datatype Accepted = Accepted(surface: Surface, entries: Entries, window: Option<Handshake>,
                               released: Option<BufferId>, acked: Option<u32>, outcome: CommitOutcome)

  /** The acknowledgement and first-configure rules; none constrains a surface without a window
      that acknowledges nothing. */
  function CheckWindow(window: Option<Handshake>, ack: Option<u32>): Result<Option<Handshake>, ProtocolError> {
    match (window, ack)
    case (None, Some(_)) => Failure(SerialMismatch)
    case (None, None) => Success(None)
    case (Some(w), Some(serial)) =>
      (match Acknowledge(w, serial) case Failure(e) => Failure(e) case Success(w') => Success(Some(w')))
    case (Some(w), None) => if w.acked.None? then Failure(NotConfigured) else Success(window)
  }

  const NO_LAYOUT := BufferLayout(1, 1)

  /** `resolved` is the layout of the pending buffer, or why it has none. */
  function CommitSurface(s: Surface, entries: Entries, sid: SurfaceId, request: CommitRequest,
                         window: Option<Handshake>, resolved: Result<BufferLayout, ProtocolError>)
    : Result<Accepted, ProtocolError>
  {
    match CheckWindow(window, request.ack)
    case Failure(e) => Failure(e)
    case Success(window') =>
      if s.pending.buffer.Attach? && resolved.Failure? then Failure(resolved.error)
      else
        match Commit(entries, sid, s.pending.buffer)
        case Failure(BufferBusy) => Failure(BusyBuffer)
        case Failure(LimitExceeded) => Failure(TooMany)
        case Success((entries', released)) =>
          var layout := if s.pending.buffer.Attach? then resolved.value else NO_LAYOUT;
          var (s', outcome) := ApplyCommit(s, layout, request.requestFrame);
          Success(Accepted(s', entries', window', released, request.ack, outcome))
  }

  // ---- the connection ----

  datatype Conn = Conn(surfaces: map<SurfaceId, Surface>, entries: Entries)

  /** A commit carries its own window state and layout lookup, which other code owns. */
  datatype ConnOp =
    | CreateSurface(sid: SurfaceId)
    | AttachTo(sid: SurfaceId, buffer: Option<BufferId>, scale: nat)
    | DamageTo(sid: SurfaceId, rects: seq<BufferRect>)
    | CommitTo(sid: SurfaceId, request: CommitRequest, window: Option<Handshake>,
               resolved: Result<BufferLayout, ProtocolError>)
    | Latch(sid: SurfaceId)
    | DestroySurface(sid: SurfaceId)

  function Listed(b: Option<BufferId>): seq<BufferId> { if b.Some? then [b.value] else [] }

  /** The next state and the buffers reported released. */
  function ConnStep(c: Conn, op: ConnOp): (Conn, seq<BufferId>) {
    if op.CreateSurface? then
      if op.sid in c.surfaces then (c, []) else (c.(surfaces := c.surfaces[op.sid := NEW_SURFACE]), [])
    else if op.sid !in c.surfaces then (c, [])
    else
      var s := c.surfaces[op.sid];
      match op
      case AttachTo(sid, buffer, scale) =>
        (c.(surfaces := c.surfaces[sid := AttachBuffer(s, buffer, scale, c.entries).0]), [])
      case DamageTo(sid, rects) => (c.(surfaces := c.surfaces[sid := Damage(s, rects).0]), [])
      case CommitTo(sid, request, window, resolved) =>
        (match CommitSurface(s, c.entries, sid, request, window, resolved)
         case Failure(_) => (c, [])
         case Success(a) => (Conn(c.surfaces[sid := a.surface], a.entries), Listed(a.released)))
      case Latch(sid) =>
        var (entries', released) := Composited(c.entries, sid);
        (Conn(c.surfaces[sid := LatchSurface(s).0], entries'), Listed(released))
      case DestroySurface(sid) =>
        var (entries', current, latest) := RemoveSurface(c.entries, sid);
        (Conn(c.surfaces - {sid}, entries'), Listed(current) + Listed(latest))
  }

  /** How many commits of this step attached `b`. */
  function Attaches(c: Conn, op: ConnOp, b: BufferId): nat {
    Bit(op.CommitTo? && op.sid in c.surfaces && c.surfaces[op.sid].pending.buffer == Attach(b)
        && CommitSurface(c.surfaces[op.sid], c.entries, op.sid, op.request, op.window, op.resolved).Success?)
  }

  function Is(b: BufferId): BufferId -> bool { x => x == b }

  function Times(s: seq<BufferId>, b: BufferId): nat { Count(s, Is(b)) }

  function NewConn(capacity: nat): Conn { Conn(map[], seq(capacity, _ => None)) }

  function ConnRun(capacity: nat, ops: seq<ConnOp>): Conn {
    if ops == [] then NewConn(capacity) else ConnStep(ConnRun(capacity, ops[..|ops| - 1]), ops[|ops| - 1]).0
  }

  function AttachesIn(capacity: nat, ops: seq<ConnOp>, b: BufferId): nat {
    if ops == [] then 0
    else
      var before := ops[..|ops| - 1];
      AttachesIn(capacity, before, b) + Attaches(ConnRun(capacity, before), ops[|ops| - 1], b)
  }

  function ReleasesIn(capacity: nat, ops: seq<ConnOp>, b: BufferId): nat {
    if ops == [] then 0
    else
      var before := ops[..|ops| - 1];
      ReleasesIn(capacity, before, b) + Times(ConnStep(ConnRun(capacity, before), ops[|ops| - 1]).1, b)
  }

  // ---- committed buffers are the tracked ones ----

  function EntryOf(entries: Entries, sid: SurfaceId): Option<Tracked> {
    if Find(entries, sid) < |entries| then entries[Find(entries, sid)] else None
  }

  /** The buffer the tracker believes a surface has committed. */
  function CommittedIn(e: Option<Tracked>): Option<BufferId> {
    match e
    case None => None
    case Some(t) =>
      match t.latest
      case NoLatest => t.current
      case LatestBuffer(b) => Some(b)
      case LatestDetach => None
  }

  function IdOf(b: Option<CommittedBuffer>): Option<BufferId> {
    match b case None => None case Some(c) => Some(c.id)
  }

  ghost predicate Linked(c: Conn) {
    forall sid ::
      CommittedIn(EntryOf(c.entries, sid)) == if sid in c.surfaces then IdOf(c.surfaces[sid].committed.buffer) else None
  }

  predicate Owned(c: Conn) {
    forall k :: 0 <= k < |c.entries| && c.entries[k].Some? ==> c.entries[k].value.surface in c.surfaces
  }

  ghost predicate ConnOk(c: Conn) {
    TrackerOk(c.entries) && Linked(c) && Owned(c)
  }

  lemma FindIs(entries: Entries, k: nat, sid: SurfaceId)
    requires OneEach(entries) && k < |entries| && entries[k].Some? && entries[k].value.surface == sid
    ensures Find(entries, sid) == k
  {
  }

  /** Changing one surface's slot leaves the entries of the others alone. */
  lemma EntryUpdate(entries: Entries, k: nat, e: Option<Tracked>, sid: SurfaceId, other: SurfaceId)
    requires k < |entries| && OneEach(entries) && OneEach(entries[k := e]) && other != sid
    requires entries[k].Some? ==> entries[k].value.surface == sid
    requires e.Some? ==> e.value.surface == sid
    ensures EntryOf(entries[k := e], other) == EntryOf(entries, other)
  {
    var i, j := Find(entries, other), Find(entries[k := e], other);
    if i < |entries| { FindIs(entries[k := e], i, other); }
    if j < |entries| { FindIs(entries, j, other); }
  }

  lemma EntrySelf(entries: Entries, k: nat, e: Option<Tracked>, sid: SurfaceId)
    requires k < |entries| && OneEach(entries) && OneEach(entries[k := e])
    requires (entries[k].Some? && entries[k].value.surface == sid)
             || (entries[k].None? && Find(entries, sid) == |entries|)
    requires e.Some? ==> e.value.surface == sid
    ensures EntryOf(entries[k := e], sid) == e
  {
    var after := entries[k := e];
    if e.Some? {
      FindIs(after, k, sid);
    } else if Find(after, sid) < |after| {
      var j := Find(after, sid);
      FindIs(entries, j, sid);
    }
  }
}
