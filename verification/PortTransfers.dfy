/**
 Capability transfer: the engine and the table change together. Releasing an undelivered child
 directly, without walking a subtree, keeps the delegation forest because such a child is a leaf.
 */
module PortTransfers {
  import opened Wrappers
  import opened Capability
  import opened SlotOps
  import opened Forest
  import opened Aging
  import opened Counting
  import opened PortTypes
  import opened PortSteps
  import opened PortInvariant

  /** A transferred handle was issued; if it still resolves, it names a delegated shared buffer. */
  predicate ChildOk(table: Slots, cap: TransferredCap) {
    DecodeId(cap.handle).Some? &&
    var h := DecodeId(cap.handle).value;
    && h.slot < |table| && h.generation <= table[h.slot].generation
    && (Resolves(table, h) ==> table[h.slot].resource.class_ == SharedBuffer && table[h.slot].provenance.parent.Some?)
  }

  predicate PoolOk(table: Slots, rs: RequestPool) {
    forall k :: 0 <= k < |rs| && CARRIES(rs[k]) ==> ChildOk(table, rs[k].transfer.value)
  }

  /** The wire handle of the child that entry `k` of port `i` carries. */
  function ChildAt(core: Core, i: nat, k: nat): Option<nat>
    requires i < |core.ports| && k < PORT_MAX_REQUEST_QUEUE_DEPTH
  {
    var r := core.ports[i].requests[k];
    if CARRIES(r) then Some(r.transfer.value.handle) else None
  }

  /** No two queued requests carry the same child. */
  predicate DistinctChildren(core: Core) {
    forall i, k, x, l :: 0 <= i < |core.ports| && 0 <= k < PORT_MAX_REQUEST_QUEUE_DEPTH
                         && 0 <= x < |core.ports| && 0 <= l < PORT_MAX_REQUEST_QUEUE_DEPTH
                         && ChildAt(core, i, k).Some? && ChildAt(core, i, k) == ChildAt(core, x, l) ==>
      i == x && k == l
  }

  predicate TransfersOk(core: Core, table: Slots) {
    && (forall i :: 0 <= i < |core.ports| ==> PoolOk(table, core.ports[i].requests))
    && DistinctChildren(core)
  }

  lemma ChildOkAges(s: Slots, t: Slots, cap: TransferredCap)
    requires Ages(s, t) && ChildOk(s, cap)
    ensures ChildOk(t, cap)
  {
    var h := DecodeId(cap.handle).value;
    assert Aged(s[h.slot], t[h.slot]);
  }

  lemma PoolOkAges(s: Slots, t: Slots, rs: RequestPool)
    requires Ages(s, t) && PoolOk(s, rs)
    ensures PoolOk(t, rs)
  {
    forall k | 0 <= k < |rs| && CARRIES(rs[k]) ensures ChildOk(t, rs[k].transfer.value) {
      ChildOkAges(s, t, rs[k].transfer.value);
    }
  }

  lemma TransfersOkAges(core: Core, s: Slots, t: Slots)
    requires Ages(s, t) && TransfersOk(core, s)
    ensures TransfersOk(core, t)
  {
    forall i | 0 <= i < |core.ports| ensures PoolOk(t, core.ports[i].requests) {
      PoolOkAges(s, t, core.ports[i].requests);
    }
  }

  // ---- releasing ----

  lemma SlotAsSet(s: Slots, k: nat)
    ensures RevokeSlot(s, k) == RevokeAll(s, {k}) && ReleaseSlot(s, k) == ReleaseAll(s, {k})
  {
    assert |RevokeSlot(s, k)| == |s| && |ReleaseSlot(s, k)| == |s|;
  }

  /** Releasing an undelivered child spends its handle and touches no slot but the one it resolves to. */
  lemma ReleaseChildAges(table: Slots, effects: EffectList, cap: TransferredCap)
    requires ChildOk(table, cap)
    ensures var t := ReleaseChild(table, effects, cap).0;
            var h := DecodeId(cap.handle).value;
            && Ages(table, t) && !Resolves(t, h)
            && (!Resolves(table, h) ==> t == table)
            && forall i :: 0 <= i < |table| && i != h.slot ==> t[i] == table[i]
  {
    AgesReflexive(table);
    var h := DecodeId(cap.handle).value;
    if Resolves(table, h) {
      SlotAsSet(table, h.slot);
      var revoked := RevokeAll(table, {h.slot});
      SlotAsSet(revoked, h.slot);
      RevokeAges(table, {h.slot});
      RevokeAges(revoked, {h.slot});
      AgesTransitive(table, revoked, ReleaseAll(revoked, {h.slot}));
    }
  }

  /** It also keeps the forest, without walking a subtree. */
  lemma ReleaseChildKeepsForest(table: Slots, effects: EffectList, cap: TransferredCap)
    requires WellFormed(table) && ChildOk(table, cap)
    ensures WellFormed(ReleaseChild(table, effects, cap).0)
  {
    var h := DecodeId(cap.handle).value;
    if Resolves(table, h) {
      SlotAsSet(table, h.slot);
      var revoked := RevokeAll(table, {h.slot});
      SlotAsSet(revoked, h.slot);
      SharedBufferChildIsLeaf(table, h.slot);
      RevokeAllKeepsForest(table, {h.slot});
      ReleaseAllKeepsForest(revoked, {h.slot});
    }
  }

  lemma {:induction false} ReleaseChildrenKeepForest(table: Slots, effects: EffectList, rs: RequestPool,
                                                     p: Request -> bool, k: nat)
    requires PoolOk(table, rs) && k <= |rs|
    requires forall r: Request :: p(r) ==> r.IsLive()
    ensures var t := ReleaseChildren(table, effects, rs, p, k).0;
            Ages(table, t) && (WellFormed(table) ==> WellFormed(t))
  {
    hide WellFormed, ReleaseChild;
    AgesReflexive(table);
    if k > 0 {
      ReleaseChildrenKeepForest(table, effects, rs, p, k - 1);
      var (t, e) := ReleaseChildren(table, effects, rs, p, k - 1);
      if p(rs[k - 1]) && rs[k - 1].transfer.Some? {
        PoolOkAges(table, t, rs);
        assert CARRIES(rs[k - 1]);
        ReleaseChildAges(t, e, rs[k - 1].transfer.value);
        AgesTransitive(table, t, ReleaseChild(t, e, rs[k - 1].transfer.value).0);
        if WellFormed(t) { ReleaseChildKeepsForest(t, e, rs[k - 1].transfer.value); }
      }
    }
  }

  /** Slot `x` holds the child of some request that satisfies `p`. */
  predicate HoldsChild(table: Slots, rs: RequestPool, p: Request -> bool, x: nat) {
    exists l :: 0 <= l < |rs| && p(rs[l]) && rs[l].transfer.Some? && DecodeId(rs[l].transfer.value.handle).Some?
                && DecodeId(rs[l].transfer.value.handle).value.slot == x
                && Resolves(table, DecodeId(rs[l].transfer.value.handle).value)
  }

  /** Purging touches only slots that hold the children of the purged requests. */
  lemma {:induction false} ReleaseChildrenTouchOnly(table: Slots, effects: EffectList, rs: RequestPool,
                                                    p: Request -> bool,
                                                    k: nat, x: nat)
    requires PoolOk(table, rs) && k <= |rs| && x < |table| && !HoldsChild(table, rs, p, x)
    requires forall r: Request :: p(r) ==> r.IsLive()
    ensures |ReleaseChildren(table, effects, rs, p, k).0| == |table|
    ensures ReleaseChildren(table, effects, rs, p, k).0[x] == table[x]
  {
    hide ReleaseChild;
    if k > 0 {
      ReleaseChildrenTouchOnly(table, effects, rs, p, k - 1, x);
      var (t, e) := ReleaseChildren(table, effects, rs, p, k - 1);
      if p(rs[k - 1]) && rs[k - 1].transfer.Some? {
        var cap := rs[k - 1].transfer.value;
        assert CARRIES(rs[k - 1]) && ChildOk(table, cap);
        ReleaseChildrenKeepForest(table, effects, rs, p, k - 1);
        ChildOkAges(table, t, cap);
        ReleaseChildAges(t, e, cap);
        var h := DecodeId(cap.handle).value;
        if h.slot == x {
          assert !Resolves(table, h);
          SpentStays(table, t, h);
        }
      }
    }
  }

  // ---- installing ----

  lemma MakeRoomKeepsForest(table: Slots)
    ensures Ages(table, MakeRoom(table)) && LiveSame(table, MakeRoom(table))
    ensures WellFormed(table) ==> WellFormed(MakeRoom(table))
  {
    AgesReflexive(table);
    RevokeAges(table, RevokedSet(table));
    if WellFormed(table) { ReleaseAllKeepsForest(table, RevokedSet(table)); }
  }

  /** Every Live record is still there. */
  predicate LiveSame(s: Slots, t: Slots) {
    |s| == |t| && forall i :: 0 <= i < |s| && s[i].state.Live? ==> t[i] == s[i]
  }

  /** Once a slot is installable the child install cannot fail; no partial transfer is visible. */
  lemma InstallChildOutcome(table: Slots, server: u64, v: ValidTransfer)
    requires v.parent.resource.class_ == SharedBuffer
    ensures var (t, r) := InstallChild(table, server, v);
            && (r.Success? <==> HasInstallableSlot(MakeRoom(table)))
            && (r.Failure? ==> t == MakeRoom(table) && r.error == NoSpace)
  {
  }

  /** The read-only child of the sender's handle that a transfer hands to the server. */
  function HandedOver(table: Slots, t: Transfer, server: u64, generation: u32): Record
    requires t.handle.slot < |table|
  {
    var parent := table[t.handle.slot];
    Record(Live, server, parent.resource, {Read},
           Provenance(Some(t.handle), parent.provenance.depth + 1, parent.provenance.rootHolder), generation)
  }

  /** The child that a SEND to port `i` carries, if it gets that far. */
  function ChildSent(w: World, i: nat, sender: u64, transfer: Option<Transfer>): Option<TransferredCap>
    requires i < |w.core.ports|
  {
    if transfer.None? then None
    else
      match ValidateTransfer(w.table, sender, transfer.value)
      case Failure(_) => None
      case Success(v) =>
        match InstallChild(w.table, w.core.ports[i].server, v).1
        case Failure(_) => None
        case Success(cap) => Some(cap)
  }

  /** The installed child is new, read-only, held by the server and delegated from the sender's handle. */
  lemma InstallChildIssues(table: Slots, sender: u64, transfer: Transfer, server: u64)
    requires |table| <= MAX_SLOT_COUNT && ValidateTransfer(table, sender, transfer).Success?
    ensures var (t, r) := InstallChild(table, server, ValidateTransfer(table, sender, transfer).value);
            && Ages(table, t)
            && (r.Success? ==>
                  && ChildOk(t, r.value)
                  && var h := DecodeId(r.value.handle).value;
                  && Issues(table, t, h)
                  && transfer.handle.slot < |table| && t[h.slot] == HandedOver(table, transfer, server, h.generation)
                  && r.value.bufferId == table[transfer.handle.slot].resource.id && r.value.rights == t[h.slot].rights)
  {
    var v := ValidateTransfer(table, sender, transfer).value;
    var room := MakeRoom(table);
    MakeRoomKeepsForest(table);
    IdRoundTrip(v.buffer, v.parent.resource.id);
    if HasInstallableSlot(room) {
      var child := TransferChild(server, v);
      InstallAges(room, child);
      AgesTransitive(table, room, Install(room, child).0);
      var h := Install(room, child).1.value;
      IdRoundTrip(h, 0);
      assert Aged(table[h.slot], room[h.slot]);
    }
  }

  lemma InstallChildKeepsForest(table: Slots, sender: u64, transfer: Transfer, server: u64)
    requires WellFormed(table) && ValidateTransfer(table, sender, transfer).Success?
    ensures WellFormed(InstallChild(table, server, ValidateTransfer(table, sender, transfer).value).0)
  {
    var v := ValidateTransfer(table, sender, transfer).value;
    var room := MakeRoom(table);
    MakeRoomKeepsForest(table);
    assert Attached(table, transfer.handle.slot);
    if HasInstallableSlot(room) {
      var child := TransferChild(server, v);
      assert ChildLink(room, child, transfer.handle);
      InstallKeepsForest(room, child);
    }
  }

  // ---- the operations ----

  /** The engine and the table together. */
  predicate WorldOk(w: World) {
    Inv(w.core) && |w.table| <= MAX_SLOT_COUNT && TransfersOk(w.core, w.table)
  }

  /** Every queued transfer of `b` was queued in `a`. */
  predicate NoNewTransfers(a: Core, b: Core) {
    && |a.ports| == |b.ports|
    && forall i, k :: 0 <= i < |b.ports| && 0 <= k < PORT_MAX_REQUEST_QUEUE_DEPTH && CARRIES(b.ports[i].requests[k])
         ==> a.ports[i].requests[k] == b.ports[i].requests[k]
  }

  lemma TransfersKept(a: Core, b: Core, table: Slots)
    requires TransfersOk(a, table) && NoNewTransfers(a, b)
    ensures TransfersOk(b, table)
  {
    forall i | 0 <= i < |b.ports| ensures PoolOk(table, b.ports[i].requests) {
      assert PoolOk(table, a.ports[i].requests);
    }
    ChildrenKept(a, b);
  }

  lemma ChildrenKept(a: Core, b: Core)
    requires DistinctChildren(a) && NoNewTransfers(a, b)
    ensures DistinctChildren(b)
  {
    forall i, k | 0 <= i < |b.ports| && 0 <= k < PORT_MAX_REQUEST_QUEUE_DEPTH && ChildAt(b, i, k).Some?
      ensures ChildAt(b, i, k) == ChildAt(a, i, k)
    {
      assert CARRIES(b.ports[i].requests[k]);
    }
  }

  /** The table side of an operation: a well-formed forest is kept and the table ages. */
  predicate TableKept(w: World, after: World) {
    && Ages(w.table, after.table) && TransfersOk(after.core, after.table)
    && (WellFormed(w.table) ==> WellFormed(after.table))
  }

  lemma PurgeKeepsTable(w: World, i: nat, j: nat)
    requires TransfersOk(w.core, w.table) && i < |w.core.ports| && j < |w.core.conns|
    ensures TableKept(w, Purge(w, i, j))
  {
    var rs := w.core.ports[i].requests;
    assert PoolOk(w.table, rs);
    ReleaseChildrenKeepForest(w.table, w.effects, rs, OfConn(ConnId(w.core, j)), |rs|);
    TransfersKept(w.core, Purge(w, i, j).core, w.table);
    TransfersOkAges(Purge(w, i, j).core, w.table, Purge(w, i, j).table);
  }

  lemma BeginCloseKeepsTable(w: World, j: nat, kind: RecvKind, reason: u32)
    requires TransfersOk(w.core, w.table) && j < |w.core.conns|
    ensures TableKept(w, BeginClose(w, j, kind, reason))
  {
    if PortLive(w.core, w.core.conns[j].port) {
      var i := w.core.conns[j].port.slot;
      PurgeKeepsTable(w, i, j);
      TransfersKept(Purge(w, i, j).core, BeginClose(w, j, kind, reason).core, Purge(w, i, j).table);
    } else {
      AgesReflexive(w.table);
    }
  }

  lemma EndByServerKeepsTable(w: World, i: nat, j: nat, reason: u32)
    requires TransfersOk(w.core, w.table) && i < |w.core.ports| && j < |w.core.conns|
    ensures TableKept(w, EndByServer(w, i, j, reason))
  {
    PurgeKeepsTable(w, i, j);
    TransfersKept(Purge(w, i, j).core, EndByServer(w, i, j, reason).core, Purge(w, i, j).table);
  }

  lemma TeardownKeepsTable(w: World, i: nat)
    requires TransfersOk(w.core, w.table) && i < |w.core.ports|
    ensures TableKept(w, Teardown(w, i))
  {
    var rs := w.core.ports[i].requests;
    assert PoolOk(w.table, rs);
    ReleaseChildrenKeepForest(w.table, w.effects, rs, LIVE, |rs|);
    TeardownShape(w, i);
    TransfersKept(w.core, Teardown(w, i).core, w.table);
    TransfersOkAges(Teardown(w, i).core, w.table, Teardown(w, i).table);
  }

  lemma SendKeepsTable(w: World, caller: Caller, connection: nat, frame: Frame, transfer: Option<Transfer>)
    requires WorldOk(w)
    ensures TableKept(w, Send(w, caller, connection, frame, transfer).0)
  {
    AgesReflexive(w.table);
    var found := ClientConnection(w.core, caller, connection);
    if found.Success? && w.core.conns[found.value].state.Open? && PortLive(w.core, w.core.conns[found.value].port) {
      var j := found.value;
      var i := w.core.conns[j].port.slot;
      var (w1, auth) := ReauthorizeClient(w, j, i);
      if auth.Success? {
        SendAuthorizedKeepsTable(w, j, i, caller, auth.value, frame, transfer);
      } else {
        BeginCloseKeepsTable(w, j, ClientRevoked, 0);
      }
    }
  }

  lemma SendAuthorizedKeepsTable(w: World, j: nat, i: nat, caller: Caller, rights: Rights, frame: Frame,
                                 transfer: Option<Transfer>)
    requires WorldOk(w) && i < |w.core.ports| && j < |w.core.conns|
    ensures TableKept(w, SendAuthorized(w, j, i, caller, rights, frame, transfer).0)
  {
    AgesReflexive(w.table);
    if HasRoom(w.core, j, i, transfer.Some?) {
      match transfer {
        case None => EnqueueKeepsTransfers(w, j, i, caller, rights, frame, None);
        case Some(t) =>
          var v := ValidateTransfer(w.table, caller.holder, t);
          if v.Success? {
            InstallChildIssues(w.table, caller.holder, t, w.core.ports[i].server);
            if WellFormed(w.table) { InstallChildKeepsForest(w.table, caller.holder, t, w.core.ports[i].server); }
            var (table, child) := InstallChild(w.table, w.core.ports[i].server, v.value);
            TransfersOkAges(w.core, w.table, table);
            if child.Success? {
              FreshChild(w, DecodeId(child.value.handle).value, table, child.value);
              EnqueueKeepsTransfers(w.(table := table), j, i, caller, rights, frame, Some(child.value));
            }
          }
      }
    }
  }

  lemma EnqueueKeepsTransfers(w: World, j: nat, i: nat, caller: Caller, rights: Rights, frame: Frame,
                              child: Option<TransferredCap>)
    requires i < |w.core.ports| && j < |w.core.conns| && HasRoom(w.core, j, i, child.Some?)
    requires TransfersOk(w.core, w.table)
    requires child.Some? ==> ChildOk(w.table, child.value) && NotCarried(w.core, child.value.handle)
    ensures TransfersOk(Enqueue(w, j, i, caller, rights, frame, child).core, w.table)
  {
    var after := Enqueue(w, j, i, caller, rights, frame, child).core;
    var entry := FindFirst(w.core.ports[i].requests, FREE_ENTRY);
    forall x | 0 <= x < |after.ports| ensures PoolOk(w.table, after.ports[x].requests) {
      assert PoolOk(w.table, w.core.ports[x].requests);
    }
    forall x, l | 0 <= x < |after.ports| && 0 <= l < PORT_MAX_REQUEST_QUEUE_DEPTH && ChildAt(after, x, l).Some?
      ensures if x == i && l == entry then child.Some? && ChildAt(after, x, l) == Some(child.value.handle)
              else ChildAt(after, x, l) == ChildAt(w.core, x, l)
    {
    }
  }

  predicate NotCarried(core: Core, handle: nat) {
    forall i, k ::
      0 <= i < |core.ports| && 0 <= k < PORT_MAX_REQUEST_QUEUE_DEPTH ==> ChildAt(core, i, k) != Some(handle)
  }

  /** A handle newer than its slot is carried by no queued request. */
  lemma FreshChild(w: World, h: SlotId, table: Slots, cap: TransferredCap)
    requires TransfersOk(w.core, w.table) && Issues(w.table, table, h) && DecodeId(cap.handle) == Some(h)
    ensures NotCarried(w.core, cap.handle)
  {
    forall i, k | 0 <= i < |w.core.ports| && 0 <= k < PORT_MAX_REQUEST_QUEUE_DEPTH
      ensures ChildAt(w.core, i, k) != Some(cap.handle)
    {
      var r := w.core.ports[i].requests[k];
      if CARRIES(r) { assert PoolOk(w.table, w.core.ports[i].requests) && ChildOk(w.table, r.transfer.value); }
    }
  }

  // ---- a SEND that succeeds ----

  /** The port slot a SEND on this connection queues at. */
  function SendSlot(core: Core, caller: Caller, connection: nat): nat
    requires ClientConnection(core, caller, connection).Success?
  {
    core.conns[ClientConnection(core, caller, connection).value].port.slot
  }

  /** The table an accepted SEND leaves. */
  function TableSent(w: World, i: nat, sender: u64, transfer: Option<Transfer>): Slots
    requires i < |w.core.ports| && (transfer.Some? ==> ValidateTransfer(w.table, sender, transfer.value).Success?)
  {
    if transfer.None? then w.table
    else InstallChild(w.table, w.core.ports[i].server, ValidateTransfer(w.table, sender, transfer.value).value).0
  }

  /** An accepted SEND installs its child, if any, and queues one request; nothing else happens. */
  lemma AcceptedSend(w: World, caller: Caller, connection: nat, frame: Frame, transfer: Option<Transfer>)
    requires Send(w, caller, connection, frame, transfer).1.Success?
    ensures ClientConnection(w.core, caller, connection).Success?
    ensures var j := ClientConnection(w.core, caller, connection).value;
            var i := SendSlot(w.core, caller, connection);
            && w.core.conns[j].state.Open? && PortLive(w.core, w.core.conns[j].port)
            && ReauthorizeClient(w, j, i).1.Success? && HasRoom(w.core, j, i, transfer.Some?)
            && (transfer.Some? ==> ValidateTransfer(w.table, caller.holder, transfer.value).Success?)
            && var child := ChildSent(w, i, caller.holder, transfer);
            && child.Some? == transfer.Some?
            && Send(w, caller, connection, frame, transfer).0
               == Enqueue(w.(table := TableSent(w, i, caller.holder, transfer)), j, i, caller,
                          ReauthorizeClient(w, j, i).1.value, frame, child)
  {
    hide InstallChild, Enqueue, BeginClose, AuthorizeAt, ValidateTransfer;
  }

  // ---- a SEND that fails ----

  /** The table differs at most by Revoked slots that were released. */
  predicate OnlyReclaimed(s: Slots, t: Slots) {
    t == s || t == ReleaseAll(s, RevokedSet(s))
  }

  /** The client's connect capability neither lapsed nor was revoked. */
  predicate ClientCapHolds(w: World, j: nat)
    requires j < |w.core.conns|
  {
    var c := w.core.conns[j];
    PortLive(w.core, c.port) ==>
      var p := w.core.ports[c.port.slot];
      var auth := AuthorizeAt(w.table, c.client, c.clientCap, p.resource, p.rights.connect);
      !(auth.Failure? && (auth.error == RevokedCapability || auth.error == StaleHandle))
  }

  /**
   A SEND that fails changes the table at most by reclaiming Revoked slots and changes nothing
   else, unless it found the client's capability gone, in which case it closes the connection.
   */
  lemma FailedSendChangesNothing(w: World, caller: Caller, connection: nat, frame: Frame, transfer: Option<Transfer>)
    requires Inv(w.core) && Send(w, caller, connection, frame, transfer).1.Failure?
    ensures var after := Send(w, caller, connection, frame, transfer).0;
            var found := ClientConnection(w.core, caller, connection);
            if found.Success? && w.core.conns[found.value].state.Open? && !ClientCapHolds(w, found.value) then
              after == BeginClose(w, found.value, ClientRevoked, 0)
              && after.core.conns[found.value].state == ClosePending(ClientRevoked, 0)
            else
              after.core == w.core && after.effects == w.effects && OnlyReclaimed(w.table, after.table)
              && (transfer.None? ==> after == w)
  {
    var found := ClientConnection(w.core, caller, connection);
    if found.Success? && w.core.conns[found.value].state.Open? {
      assert ConnOk(w.core, found.value);
      if !ClientCapHolds(w, found.value) {
        BeginCloseKeepsInv(w, found.value, ClientRevoked, 0);
      } else if transfer.Some? && ValidateTransfer(w.table, caller.holder, transfer.value).Success? {
        InstallChildOutcome(w.table, w.core.ports[w.core.conns[found.value].port.slot].server,
                            ValidateTransfer(w.table, caller.holder, transfer.value).value);
      }
    }
  }
}
