/** Buffers over every run of a connection: who holds them, and when they are given back. */
module ConnectionRuns {
  import opened Wrappers
  import opened Counting
  import opened Tracker
  import opened Surfaces
  import opened Window
  import opened Connection

  // ---- the tracker operations, seen per surface ----

  lemma CommitEntries(entries: Entries, sid: SurfaceId, pending: PendingBuffer)
    requires TrackerOk(entries) && Commit(entries, sid, pending).Success?
    ensures var after := Commit(entries, sid, pending).value.0;
            && (forall other :: other != sid ==> EntryOf(after, other) == EntryOf(entries, other))
            && CommittedIn(EntryOf(after, sid)) == match pending
                 case Unchanged => CommittedIn(EntryOf(entries, sid))
                 case Attach(b) => Some(b)
                 case Detach => None
  {
    CommitKeepsTracker(entries, sid, pending);
    var after := Commit(entries, sid, pending).value.0;
    var k := if pending.Attach? then AttachSlot(entries, sid) else Find(entries, sid);
    if !pending.Unchanged? && k < |entries| {
      assert after == entries[k := after[k]];
      SlotUpdate(entries, k, after[k], sid);
    }
  }

  lemma CompositedEntries(entries: Entries, sid: SurfaceId)
    requires TrackerOk(entries)
    ensures var after := Composited(entries, sid).0;
            forall other :: CommittedIn(EntryOf(after, other)) == CommittedIn(EntryOf(entries, other))
  {
    CompositedKeepsTracker(entries, sid);
    var after := Composited(entries, sid).0;
    var k := Find(entries, sid);
    if k < |entries| {
      assert after == entries[k := after[k]];
      SlotUpdate(entries, k, after[k], sid);
    }
  }

  lemma RemoveEntries(entries: Entries, sid: SurfaceId)
    requires TrackerOk(entries)
    ensures var after := RemoveSurface(entries, sid).0;
            && EntryOf(after, sid).None?
            && forall other :: other != sid ==> EntryOf(after, other) == EntryOf(entries, other)
  {
    RemoveKeepsTracker(entries, sid);
    var k := Find(entries, sid);
    if k < |entries| { SlotUpdate(entries, k, None, sid); }
  }

  lemma SlotUpdate(entries: Entries, k: nat, e: Option<Tracked>, sid: SurfaceId)
    requires k < |entries| && OneEach(entries) && OneEach(entries[k := e])
    requires (entries[k].Some? && entries[k].value.surface == sid)
             || (entries[k].None? && Find(entries, sid) == |entries|)
    requires e.Some? ==> e.value.surface == sid
    ensures EntryOf(entries[k := e], sid) == e
    ensures forall other :: other != sid ==> EntryOf(entries[k := e], other) == EntryOf(entries, other)
  {
    EntrySelf(entries, k, e, sid);
    forall other | other != sid ensures EntryOf(entries[k := e], other) == EntryOf(entries, other) {
      EntryUpdate(entries, k, e, sid, other);
    }
  }

  // ---- every step ----

  lemma CommitKeepsConn(c: Conn, op: ConnOp)
    requires ConnOk(c) && op.CommitTo?
    ensures ConnOk(ConnStep(c, op).0)
  {
    hide ApplyCommit, CheckWindow, TrackerOk, EntryOf;
    if op.sid in c.surfaces {
      var s := c.surfaces[op.sid];
      var r := CommitSurface(s, c.entries, op.sid, op.request, op.window, op.resolved);
      if r.Success? {
        CommitKeepsTracker(c.entries, op.sid, s.pending.buffer);
        CommitEntries(c.entries, op.sid, s.pending.buffer);
        CommitsNext(s, if s.pending.buffer.Attach? then op.resolved.value else NO_LAYOUT, op.request.requestFrame);
      }
    }
  }

  lemma CommitsNext(s: Surface, layout: BufferLayout, requestFrame: bool)
    ensures ApplyCommit(s, layout, requestFrame).0.committed.buffer == NextBuffer(s, layout)
  {
  }

  lemma RemoveKeepsOwned(c: Conn, sid: SurfaceId)
    requires ConnOk(c) && sid in c.surfaces
    ensures Owned(ConnStep(c, DestroySurface(sid)).0)
  {
    var k := Find(c.entries, sid);
    forall j | 0 <= j < |c.entries| && c.entries[j].Some? && j != k ensures c.entries[j].value.surface != sid {
      if k == |c.entries| { assert !ForSurface(sid)(c.entries[j]); }
    }
  }

  lemma StepKeepsConn(c: Conn, op: ConnOp)
    requires ConnOk(c)
    ensures ConnOk(ConnStep(c, op).0)
  {
    hide TrackerOk, EntryOf, DamageSet, InsertClipped, CommitSurface;
    match op
    case CommitTo(_, _, _, _) => CommitKeepsConn(c, op);
    case Latch(sid) =>
      CompositedKeepsTracker(c.entries, sid);
      CompositedEntries(c.entries, sid);
    case DestroySurface(sid) =>
      RemoveKeepsTracker(c.entries, sid);
      RemoveEntries(c.entries, sid);
      if sid in c.surfaces { RemoveKeepsOwned(c, sid); }
    case _ =>
  }

  lemma TimesAppend(s: seq<BufferId>, y: BufferId, b: BufferId)
    ensures Times(s + [y], b) == Times(s, b) + Bit(y == b)
  {
  }

  lemma TimesListed(b: BufferId, x: Option<BufferId>, y: Option<BufferId>)
    ensures Times(Listed(x), b) == Bit(x == Some(b))
    ensures Times(Listed(x) + Listed(y), b) == Bit(x == Some(b)) + Bit(y == Some(b))
  {
    if x.Some? {
      TimesAppend([], x.value, b);
      assert Listed(x) == [] + [x.value];
    }
    if y.Some? { TimesAppend(Listed(x), y.value, b); } else { assert Listed(x) + Listed(y) == Listed(x); }
  }

  /** One step adds a place for the buffer it attaches and gives up one for each it releases. */
  lemma StepConserves(c: Conn, op: ConnOp, b: BufferId)
    ensures var (c', released) := ConnStep(c, op);
            && Places(c'.entries, b) + Times(released, b) == Places(c.entries, b) + Attaches(c, op, b)
            && |c'.entries| == |c.entries|
  {
    hide Times, Places, ApplyCommit, CheckWindow, Commit, Composited, RemoveSurface;
    TimesListed(b, None, None);
    if op.sid in c.surfaces && op.CommitTo? {
      var pending := c.surfaces[op.sid].pending.buffer;
      if Commit(c.entries, op.sid, pending).Success? {
        CommitConserves(c.entries, op.sid, pending, b);
        TimesListed(b, Commit(c.entries, op.sid, pending).value.1, None);
      }
    } else if op.Latch? {
      CompositedConserves(c.entries, op.sid, b);
      TimesListed(b, Composited(c.entries, op.sid).1, None);
    } else if op.DestroySurface? {
      RemoveConserves(c.entries, op.sid, b);
      var (_, current, latest) := RemoveSurface(c.entries, op.sid);
      TimesListed(b, current, latest);
    }
  }

  // ---- every run ----

  lemma {:induction false} NewTrackerOk(capacity: nat)
    ensures TrackerOk(NewConn(capacity).entries)
    ensures forall b :: Places(NewConn(capacity).entries, b) == 0
  {
    var entries := NewConn(capacity).entries;
    assert forall k :: 0 <= k < |entries| ==> entries[k].None? && Useful(entries[k]);
    if capacity > 0 {
      NewTrackerOk(capacity - 1);
      assert entries[..capacity - 1] == NewConn(capacity - 1).entries;
    }
  }

  lemma {:induction false} EveryRunKeepsConn(capacity: nat, ops: seq<ConnOp>)
    ensures ConnOk(ConnRun(capacity, ops)) && |ConnRun(capacity, ops).entries| == capacity
  {
    hide TrackerOk, ConnStep;
    if ops == [] {
      NewTrackerOk(capacity);
    } else {
      var before := ops[..|ops| - 1];
      EveryRunKeepsConn(capacity, before);
      StepKeepsConn(ConnRun(capacity, before), ops[|ops| - 1]);
      StepConserves(ConnRun(capacity, before), ops[|ops| - 1], 0);
    }
  }

  /** Over every run a buffer is busy in at most one place, and every accepted attach has been
      released exactly once or is that one place. */
  lemma {:induction false} BuffersAreConserved(capacity: nat, ops: seq<ConnOp>, b: BufferId)
    ensures AttachesIn(capacity, ops, b) == ReleasesIn(capacity, ops, b) + Places(ConnRun(capacity, ops).entries, b)
    ensures Places(ConnRun(capacity, ops).entries, b) <= 1
  {
    hide ConnStep, Attaches, Times, Places;
    EveryRunKeepsConn(capacity, ops);
    if ops == [] {
      NewTrackerOk(capacity);
    } else {
      var before := ops[..|ops| - 1];
      BuffersAreConserved(capacity, before, b);
      StepConserves(ConnRun(capacity, before), ops[|ops| - 1], b);
    }
  }

  /** Committed buffers and displayed buffers of live surfaces are busy. */
  lemma CommittedIsBusy(c: Conn, sid: SurfaceId, b: BufferId)
    requires ConnOk(c) && sid in c.surfaces
    requires IdOf(c.surfaces[sid].committed.buffer) == Some(b)
             || (EntryOf(c.entries, sid).Some? && EntryOf(c.entries, sid).value.current == Some(b))
    ensures IsBusy(c.entries, b)
  {
  }

  /** After any run, a buffer a step releases is neither committed nor displayed by any surface. */
  lemma ReleasedIsIdle(capacity: nat, ops: seq<ConnOp>, op: ConnOp, b: BufferId, sid: SurfaceId)
    requires b in ConnStep(ConnRun(capacity, ops), op).1
    ensures var c' := ConnStep(ConnRun(capacity, ops), op).0;
            && !IsBusy(c'.entries, b)
            && (sid in c'.surfaces ==> IdOf(c'.surfaces[sid].committed.buffer) != Some(b))
            && (EntryOf(c'.entries, sid).Some? ==> EntryOf(c'.entries, sid).value.current != Some(b))
  {
    hide Places, Times, TrackerOk, ConnStep, EntryOf;
    var c := ConnRun(capacity, ops);
    var c' := ConnStep(c, op).0;
    EveryRunKeepsConn(capacity, ops);
    StepKeepsConn(c, op);
    StepConserves(c, op, b);
    BuffersAreConserved(capacity, ops, b);
    BusyIffPlaced(c.entries, b);
    BusyIffPlaced(c'.entries, b);
    ReleasedCounts(ConnStep(c, op).1, b);
    AttachedWasIdle(c, op, b);
    if sid in c'.surfaces && IdOf(c'.surfaces[sid].committed.buffer) == Some(b) { CommittedIsBusy(c', sid, b); }
    DisplayedIsBusy(c'.entries, sid, b);
  }

  lemma ReleasedCounts(released: seq<BufferId>, b: BufferId)
    requires b in released
    ensures Times(released, b) >= 1
  {
    CountZero(released, Is(b));
    var i :| 0 <= i < |released| && released[i] == b;
  }

  lemma AttachedWasIdle(c: Conn, op: ConnOp, b: BufferId)
    ensures Attaches(c, op, b) == 1 ==> !IsBusy(c.entries, b) && b !in ConnStep(c, op).1
  {
  }

  lemma DisplayedIsBusy(entries: Entries, sid: SurfaceId, b: BufferId)
    ensures EntryOf(entries, sid).Some? && EntryOf(entries, sid).value.current == Some(b) ==> IsBusy(entries, b)
  {
  }

  // ---- the limit ----

  /** Every attach request of the run names a buffer in `u`. */
  predicate Draws(ops: seq<ConnOp>, u: set<BufferId>) {
    forall i :: 0 <= i < |ops| && ops[i].AttachTo? && ops[i].buffer.Some? ==> ops[i].buffer.value in u
  }

  ghost predicate DrawnFrom(c: Conn, u: set<BufferId>) {
    && (forall b :: IsBusy(c.entries, b) ==> b in u)
    && (forall sid ::
          sid in c.surfaces && c.surfaces[sid].pending.buffer.Attach? ==> c.surfaces[sid].pending.buffer.buffer in u)
  }

  lemma StepDraws(c: Conn, op: ConnOp, u: set<BufferId>)
    requires DrawnFrom(c, u) && (op.AttachTo? && op.buffer.Some? ==> op.buffer.value in u)
    ensures DrawnFrom(ConnStep(c, op).0, u)
  {
    var c' := ConnStep(c, op).0;
    forall b | IsBusy(c'.entries, b) ensures b in u {
      BusyIffPlaced(c.entries, b);
      BusyIffPlaced(c'.entries, b);
      StepConserves(c, op, b);
      StepAttachesPending(c, op, b);
    }
    StepPending(c, op, u);
  }

  lemma StepAttachesPending(c: Conn, op: ConnOp, b: BufferId)
    ensures Attaches(c, op, b) == 1 ==> op.sid in c.surfaces && c.surfaces[op.sid].pending.buffer == Attach(b)
  {
  }

  lemma StepPending(c: Conn, op: ConnOp, u: set<BufferId>)
    requires DrawnFrom(c, u) && (op.AttachTo? && op.buffer.Some? ==> op.buffer.value in u)
    ensures forall sid :: sid in ConnStep(c, op).0.surfaces && ConnStep(c, op).0.surfaces[sid].pending.buffer.Attach?
              ==> ConnStep(c, op).0.surfaces[sid].pending.buffer.buffer in u
  {
    hide IsBusy, Commit, CheckWindow, DamageSet, InsertClipped, InsertAll, CommitDamage, CommittedRegion,
         CommittedOpaque;
  }

  lemma {:induction false} RunDraws(capacity: nat, ops: seq<ConnOp>, u: set<BufferId>)
    requires Draws(ops, u)
    ensures DrawnFrom(ConnRun(capacity, ops), u)
  {
    if ops == [] {
      NewTrackerOk(capacity);
      forall b ensures !IsBusy(NewConn(capacity).entries, b) { BusyIffPlaced(NewConn(capacity).entries, b); }
    } else {
      var before := ops[..|ops| - 1];
      RunDraws(capacity, before, u);
      StepDraws(ConnRun(capacity, before), ops[|ops| - 1], u);
    }
  }

  /** If the client's buffers fit the tracker, no commit of any run exceeds its limit. */
  lemma LimitNeverExceeded(capacity: nat, ops: seq<ConnOp>, u: set<BufferId>, sid: SurfaceId)
    requires Draws(ops, u) && |u| <= capacity
    ensures var c := ConnRun(capacity, ops);
            sid in c.surfaces ==> CheckCommit(c.entries, sid, c.surfaces[sid].pending.buffer) != Failure(LimitExceeded)
  {
    hide ConnStep, IsBusy, CheckCommit;
    EveryRunKeepsConn(capacity, ops);
    RunDraws(capacity, ops, u);
    var c := ConnRun(capacity, ops);
    if sid in c.surfaces {
      LimitUnreachable(c.entries, sid, c.surfaces[sid].pending.buffer, u);
    }
  }
}
