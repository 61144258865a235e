/** The connection-wide busy-buffer tracker, as values and as the array the compositor updates. */
module Tracker {
  import opened Wrappers
  import opened Counting

  type SurfaceId = nat
  type BufferId = nat

  datatype PendingBuffer = Unchanged | Attach(buffer: BufferId) | Detach

  /** Committed but not yet composited. */
  datatype Latest = NoLatest | LatestBuffer(buffer: BufferId) | LatestDetach

  /** `current` is on screen; `latest` waits for the next composition. */
  datatype Tracked = Tracked(surface: SurfaceId, current: Option<BufferId>, latest: Latest)

  type Entries = seq<Option<Tracked>>

  datatype TrackerError = BufferBusy | LimitExceeded

  function ForSurface(surface: SurfaceId): Option<Tracked> -> bool {
    (e: Option<Tracked>) => e.Some? && e.value.surface == surface
  }

  const UNUSED: Option<Tracked> -> bool := (e: Option<Tracked>) => e.None?

  /** The entry of a surface, or `|entries|`. */
  function Find(entries: Entries, surface: SurfaceId): (k: nat)
    ensures k <= |entries|
    ensures k < |entries| ==> entries[k].Some? && entries[k].value.surface == surface
  {
    FindFirst(entries, ForSurface(surface))
  }

  predicate Holds(e: Option<Tracked>, b: BufferId) {
    e.Some? && (e.value.current == Some(b) || e.value.latest == LatestBuffer(b))
  }

  function Holding(b: BufferId): Option<Tracked> -> bool {
    (e: Option<Tracked>) => Holds(e, b)
  }

  predicate IsBusy(entries: Entries, b: BufferId) {
    FindFirst(entries, Holding(b)) < |entries|
  }

  function CheckCommit(entries: Entries, surface: SurfaceId, pending: PendingBuffer): Result<(), TrackerError> {
    if !pending.Attach? then Success(())
    else if IsBusy(entries, pending.buffer) then Failure(BufferBusy)
    else if Find(entries, surface) == |entries| && FindFirst(entries, UNUSED) == |entries| then Failure(LimitExceeded)
    else Success(())
  }

  function LatestOf(t: Tracked): Option<BufferId> {
    if t.latest.LatestBuffer? then Some(t.latest.buffer) else None
  }

  /** The slot an attach uses: the surface's own entry, or the first unused one. */
  function AttachSlot(entries: Entries, surface: SurfaceId): (k: nat)
    ensures k <= |entries|
  {
    if Find(entries, surface) < |entries| then Find(entries, surface) else FindFirst(entries, UNUSED)
  }

  /** The entries after a commit, and the superseded buffer it releases. */
  function Commit(entries: Entries, surface: SurfaceId, pending: PendingBuffer)
    : Result<(Entries, Option<BufferId>), TrackerError>
  {
    match CheckCommit(entries, surface, pending)
    case Failure(e) => Failure(e)
    case Success(_) =>
      match pending
      case Unchanged => Success((entries, None))
      case Attach(b) =>
        var k := AttachSlot(entries, surface);
        var t := if entries[k].Some? then entries[k].value else Tracked(surface, None, NoLatest);
        Success((entries[k := Some(t.(latest := LatestBuffer(b)))], LatestOf(t)))
      case Detach =>
        var k := Find(entries, surface);
        if k == |entries| then Success((entries, None))
        else
          var t := entries[k].value;
          Success((entries[k := if t.current.Some? then Some(t.(latest := LatestDetach)) else None], LatestOf(t)))
  }

  /** Composition: the latest buffer becomes current; the previous current is released. */
  function Composited(entries: Entries, surface: SurfaceId): (Entries, Option<BufferId>) {
    var k := Find(entries, surface);
    if k == |entries| then (entries, None)
    else
      var t := entries[k].value;
      match t.latest
      case NoLatest => (entries, None)
      case LatestBuffer(b) => (entries[k := Some(t.(current := Some(b), latest := NoLatest))], t.current)
      case LatestDetach => (entries[k := None], t.current)
  }

  /** The surface is destroyed: everything it held is released, as current and latest. */
  function RemoveSurface(entries: Entries, surface: SurfaceId): (Entries, Option<BufferId>, Option<BufferId>) {
    var k := Find(entries, surface);
    if k == |entries| then (entries, None, None)
    else (entries[k := None], entries[k].value.current, LatestOf(entries[k].value))
  }

  // ---- the busy buffers ----

  /** In how many of the two places of an entry buffer `b` is busy. */
  function PlacesIn(e: Option<Tracked>, b: BufferId): nat {
    match e
    case None => 0
    case Some(t) => Bit(t.current == Some(b)) + Bit(LatestOf(t) == Some(b))
  }

  /** In how many places of the whole tracker buffer `b` is busy. */
  function Places(entries: Entries, b: BufferId): nat {
    if entries == [] then 0 else Places(entries[..|entries| - 1], b) + PlacesIn(entries[|entries| - 1], b)
  }

  predicate Useful(e: Option<Tracked>) {
    e.Some? ==> e.value.current.Some? || e.value.latest.LatestBuffer?
  }

  /** Each buffer is busy in at most one place; entries are useful and one to a surface. */
  ghost predicate TrackerOk(entries: Entries) {
    && (forall b :: Places(entries, b) <= 1)
    && (forall k :: 0 <= k < |entries| ==> Useful(entries[k]))
    && OneEach(entries)
  }

  predicate OneEach(entries: Entries) {
    forall k, l :: 0 <= k < l < |entries| && entries[k].Some? && entries[l].Some? ==>
      entries[k].value.surface != entries[l].value.surface
  }

  lemma {:induction false} PlacesUpdate(entries: Entries, k: nat, e: Option<Tracked>, b: BufferId)
    requires k < |entries|
    ensures Places(entries[k := e], b) + PlacesIn(entries[k], b) == Places(entries, b) + PlacesIn(e, b)
  {
    var n := |entries| - 1;
    if k == n {
      assert entries[k := e][..n] == entries[..n];
    } else {
      PlacesUpdate(entries[..n], k, e, b);
      assert entries[k := e][..n] == entries[..n][k := e];
    }
  }

  lemma {:induction false} BusyIffPlaced(entries: Entries, b: BufferId)
    ensures IsBusy(entries, b) <==> Places(entries, b) > 0
  {
    if entries != [] {
      BusyIffPlaced(entries[..|entries| - 1], b);
      assert Holding(b)(entries[|entries| - 1]) <==> PlacesIn(entries[|entries| - 1], b) > 0;
    }
  }

  /** A commit makes an attached buffer busy in one more place and releases what it supersedes. */
  lemma CommitConserves(entries: Entries, surface: SurfaceId, pending: PendingBuffer, b: BufferId)
    requires Commit(entries, surface, pending).Success?
    ensures var (after, released) := Commit(entries, surface, pending).value;
            && |after| == |entries|
            && Places(after, b) + Bit(released == Some(b)) == Places(entries, b) + Bit(pending == Attach(b))
  {
    var after := Commit(entries, surface, pending).value.0;
    var k := if pending.Attach? then AttachSlot(entries, surface) else Find(entries, surface);
    if !pending.Unchanged? && k < |entries| {
      PlacesUpdate(entries, k, after[k], b);
      assert after == entries[k := after[k]];
    }
  }

  lemma CompositedConserves(entries: Entries, surface: SurfaceId, b: BufferId)
    ensures var (after, released) := Composited(entries, surface);
            |after| == |entries| && Places(after, b) + Bit(released == Some(b)) == Places(entries, b)
  {
    var k := Find(entries, surface);
    var after := Composited(entries, surface).0;
    if k < |entries| {
      PlacesUpdate(entries, k, after[k], b);
      assert after == entries[k := after[k]];
    }
  }

  lemma RemoveConserves(entries: Entries, surface: SurfaceId, b: BufferId)
    ensures var (after, current, latest) := RemoveSurface(entries, surface);
            |after| == |entries|
            && Places(after, b) + Bit(current == Some(b)) + Bit(latest == Some(b)) == Places(entries, b)
  {
    var k := Find(entries, surface);
    if k < |entries| { PlacesUpdate(entries, k, None, b); }
  }

  // ---- every operation keeps the tracker consistent ----

  lemma CommitKeepsTracker(entries: Entries, surface: SurfaceId, pending: PendingBuffer)
    requires TrackerOk(entries) && Commit(entries, surface, pending).Success?
    ensures TrackerOk(Commit(entries, surface, pending).value.0)
  {
    var after := Commit(entries, surface, pending).value.0;
    forall b ensures Places(after, b) <= 1 {
      CommitConserves(entries, surface, pending, b);
      BusyIffPlaced(entries, b);
    }
  }

  lemma CompositedKeepsTracker(entries: Entries, surface: SurfaceId)
    requires TrackerOk(entries)
    ensures TrackerOk(Composited(entries, surface).0)
  {
    var after := Composited(entries, surface).0;
    forall b ensures Places(after, b) <= 1 { CompositedConserves(entries, surface, b); }
  }

  lemma RemoveKeepsTracker(entries: Entries, surface: SurfaceId)
    requires TrackerOk(entries)
    ensures TrackerOk(RemoveSurface(entries, surface).0)
  {
    var after := RemoveSurface(entries, surface).0;
    forall b ensures Places(after, b) <= 1 { RemoveConserves(entries, surface, b); }
  }

  // ---- the limit ----

  /** One busy buffer of each entry, in entry order. */
  function Samples(entries: Entries): seq<BufferId>
    requires forall k :: 0 <= k < |entries| ==> entries[k].Some? && Useful(entries[k])
  {
    seq(|entries|, k requires 0 <= k < |entries| && entries[k].Some? && Useful(entries[k]) => Sample(entries[k].value))
  }

  function Sample(t: Tracked): BufferId
    requires Useful(Some(t))
  {
    if t.current.Some? then t.current.value else t.latest.buffer
  }

  lemma {:induction false} PlacedTwice(entries: Entries, k: nat, l: nat, b: BufferId)
    requires k < l < |entries| && PlacesIn(entries[k], b) > 0 && PlacesIn(entries[l], b) > 0
    ensures Places(entries, b) >= 2
  {
    var n := |entries| - 1;
    if l == n {
      BusyIffPlaced(entries[..n], b);
      assert Holding(b)(entries[..n][k]);
    } else {
      PlacedTwice(entries[..n], k, l, b);
    }
  }

  /** With all buffers drawn from a set no larger than the tracker, the limit is never hit. */
  lemma LimitUnreachable(entries: Entries, surface: SurfaceId, pending: PendingBuffer, u: set<BufferId>)
    requires TrackerOk(entries) && |u| <= |entries|
    requires (forall b :: IsBusy(entries, b) ==> b in u) && (pending.Attach? ==> pending.buffer in u)
    ensures CheckCommit(entries, surface, pending) != Failure(LimitExceeded)
  {
    if pending.Attach? && !IsBusy(entries, pending.buffer) && FindFirst(entries, UNUSED) == |entries| {
      forall k | 0 <= k < |entries| ensures entries[k].Some? { assert !UNUSED(entries[k]); }
      var s := Samples(entries);
      forall k | 0 <= k < |s| ensures s[k] in u - {pending.buffer} {
        assert Holding(s[k])(entries[k]);
      }
      forall k, l | 0 <= k < l < |s| ensures s[k] != s[l] {
        if s[k] == s[l] { PlacedTwice(entries, k, l, s[k]); }
      }
      DistinctFit(s, u - {pending.buffer});
      assert false;
    }
  }
}
