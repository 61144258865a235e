/** The structural invariant of the port engine, and why every operation keeps it. */
module PortInvariant {
  import opened Wrappers
  import opened Capability
  import opened SlotOps
  import opened Counting
  import opened PortTypes
  import opened PortSteps

  /** A queued request belongs to an Open connection of the port that queues it. */
  predicate RequestOk(core: Core, i: nat, r: Request)
    requires i < |core.ports|
  {
    r.IsLive() ==>
      && r.connection.slot < |core.conns|
      && ConnId(core, r.connection.slot) == r.connection
      && core.conns[r.connection.slot].state.Open?
      && core.conns[r.connection.slot].port == Key(core, i)
  }

  predicate PortOk(core: Core, i: nat)
    requires i < |core.ports|
  {
    var p := core.ports[i];
    && (!p.live ==> forall k :: 0 <= k < |p.requests| ==> !p.requests[k].IsLive())
    && (p.live ==>
          && p.generation >= 1 && p.params.Valid() && p.nextSeq >= 1
          && p.server != KERNEL && PortRightsFor(p.resource.class_) == Some(p.rights)
          && Count(p.requests, LIVE) <= p.params.requestDepth
          && p.transfersInFlight == Count(p.requests, CARRIES) <= PORT_MAX_TRANSFERS_IN_FLIGHT)
    && (forall k :: 0 <= k < |p.requests| ==> RequestOk(core, i, p.requests[k]))
  }

  /** Counters equal the true counts, limits hold, and only ServerGone outlives its port. */
  predicate ConnOk(core: Core, j: nat)
    requires j < |core.conns|
  {
    var c := core.conns[j];
    && (!c.state.Free? ==>
          && c.generation >= 1 && c.port.slot < |core.ports|
          && c.port.generation <= core.ports[c.port.slot].generation)
    && (!c.state.Free? && !c.state.ServerGone? ==>
          && PortLive(core, c.port)
          && c.eventLen <= core.ports[c.port.slot].params.eventDepth)
    && (c.state.Free? || c.state.ServerGone? ==> c.eventLen == 0)
    && (c.state.ClosePending? ==> !c.state.kind.RequestReceived?)
    && (c.state.Open? ==>
          && c.outstanding == Count(core.ports[c.port.slot].requests, OfConn(ConnId(core, j)))
          && c.outstanding <= core.ports[c.port.slot].params.maxOutstanding
          && c.transfersInFlight == Count(core.ports[c.port.slot].requests, CarriesFor(ConnId(core, j)))
          && c.transfersInFlight <= PORT_MAX_TRANSFERS_IN_FLIGHT_PER_CONNECTION)
    && (!c.state.Open? ==> c.outstanding == 0 && c.transfersInFlight == 0)
  }

  /** No port has more connections than its parameters allow, in all or from one client. */
  predicate LimitsOk(core: Core, i: nat)
    requires i < |core.ports|
  {
    core.ports[i].live ==>
      && Count(core.conns, BoundTo(Key(core, i))) <= core.ports[i].params.maxConnections
      && forall h: u64 :: Count(core.conns, BoundToBy(Key(core, i), h)) <= core.ports[i].params.maxConnectionsPerHolder
  }

  /** No two live ports serve the same class and id. */
  predicate Distinct(core: Core) {
    forall i, k :: 0 <= i < |core.ports| && 0 <= k < |core.ports| && core.ports[i].live && core.ports[k].live
                   && core.ports[i].resource.class_ == core.ports[k].resource.class_
                   && core.ports[i].resource.id == core.ports[k].resource.id
      ==> i == k
  }

  predicate Inv(core: Core) {
    && (forall i :: 0 <= i < |core.ports| ==> PortOk(core, i))
    && (forall j :: 0 <= j < |core.conns| ==> ConnOk(core, j))
    && (forall i :: 0 <= i < |core.ports| ==> LimitsOk(core, i))
    && Distinct(core)
  }

  /** No queued request names connection `j`. */
  predicate Unqueued(core: Core, j: nat)
    requires j < |core.conns|
  {
    forall i, k :: 0 <= i < |core.ports| && 0 <= k < |core.ports[i].requests| && core.ports[i].requests[k].IsLive()
      ==> core.ports[i].requests[k].connection != ConnId(core, j)
  }

  lemma NotOpenIsUnqueued(core: Core, j: nat)
    requires Inv(core) && j < |core.conns| && !core.conns[j].state.Open?
    ensures Unqueued(core, j)
  {
    forall i, k | 0 <= i < |core.ports| && 0 <= k < |core.ports[i].requests| && core.ports[i].requests[k].IsLive()
      ensures core.ports[i].requests[k].connection != ConnId(core, j)
    {
      assert PortOk(core, i) && RequestOk(core, i, core.ports[i].requests[k]);
    }
  }

  // ---- replacing one connection ----

  /** `d` is bound only where `c` was. */
  predicate NoNewBinding(c: Connection, d: Connection) {
    d.state.Free? || (!c.state.Free? && d.port == c.port && d.client == c.client)
  }

  lemma LimitsShrink(core: Core, after: Core, i: nat)
    requires i < |core.ports| == |after.ports| && |core.conns| == |after.conns| && LimitsOk(core, i)
    requires forall j :: 0 <= j < |core.conns| ==> NoNewBinding(core.conns[j], after.conns[j])
    requires after.ports[i].live ==> core.ports[i].live && after.ports[i].params == core.ports[i].params
    requires after.ports[i].generation == core.ports[i].generation
    ensures LimitsOk(after, i)
  {
    var key := Key(core, i);
    CountLe(after.conns, core.conns, BoundTo(key), BoundTo(key));
    forall h: u64 ensures Count(after.conns, BoundToBy(key, h)) <= Count(core.conns, BoundToBy(key, h)) {
      CountLe(after.conns, core.conns, BoundToBy(key, h), BoundToBy(key, h));
    }
  }

  /** `c` and `d` are the same Open connection with the same counters. */
  predicate SameOpen(c: Connection, d: Connection) {
    && c.state.Open? && d.state.Open? && c.generation == d.generation && c.port == d.port
    && c.outstanding == d.outstanding && c.transfersInFlight == d.transfersInFlight
  }

  lemma SetConnKeepsInv(core: Core, j: nat, d: Connection)
    requires Inv(core) && j < |core.conns|
    requires d.generation == core.conns[j].generation
    requires SameOpen(core.conns[j], d) || Unqueued(core, j)
    requires NoNewBinding(core.conns[j], d)
    requires ConnOk(core.(conns := core.conns[j := d]), j)
    ensures Inv(core.(conns := core.conns[j := d]))
  {
    var after := core.(conns := core.conns[j := d]);
    forall i | 0 <= i < |after.ports| ensures PortOk(after, i) {
      assert PortOk(core, i);
      var rs := core.ports[i].requests;
      forall k | 0 <= k < |rs| ensures RequestOk(after, i, rs[k]) {
        assert RequestOk(core, i, rs[k]);
      }
    }
    forall x | 0 <= x < |after.conns| ensures ConnOk(after, x) {
      assert ConnOk(core, x);
    }
    forall i | 0 <= i < |after.ports| ensures LimitsOk(after, i) {
      LimitsShrink(core, after, i);
    }
  }

  // ---- replacing one port ----

  /** Only bookkeeping differs: the wake binding and the sequence counter. */
  predicate SameQueue(p: Port, q: Port) {
    q == p.(nextSeq := q.nextSeq, wake := q.wake) && (p.nextSeq >= 1 ==> q.nextSeq >= 1)
  }

  lemma SetPortKeepsInv(core: Core, i: nat, q: Port)
    requires Inv(core) && i < |core.ports| && SameQueue(core.ports[i], q)
    ensures Inv(core.(ports := core.ports[i := q]))
  {
    var after := core.(ports := core.ports[i := q]);
    forall x | 0 <= x < |after.ports| ensures PortOk(after, x) && LimitsOk(after, x) {
      assert PortOk(core, x) && LimitsOk(core, x);
      assert Key(after, x) == Key(core, x);
      var rs := core.ports[x].requests;
      forall k | 0 <= k < |rs| ensures RequestOk(after, x, rs[k]) {
        assert RequestOk(core, x, rs[k]);
      }
    }
    forall x | 0 <= x < |after.conns| ensures ConnOk(after, x) {
      assert ConnOk(core, x);
    }
  }

  lemma DrawKeepsInv(core: Core, i: nat)
    requires Inv(core) && i < |core.ports|
    ensures Inv(DrawSeq(core, i))
  {
    SetPortKeepsInv(core, i, DrawSeq(core, i).ports[i]);
  }

  // ---- changing one connection's requests ----

  /** The pools differ only in entries that are free or belong to `id`. */
  predicate OnlyFor(rs: RequestPool, after: RequestPool, id: SlotId) {
    forall k :: 0 <= k < |rs| ==>
      after[k] == rs[k]
      || ((rs[k].IsLive() ==> rs[k].connection == id) && (after[k].IsLive() ==> after[k].connection == id))
  }

  /** Port `i` is `q` and connection `j` is `d`: the same two with another set of `j`'s requests. */
  predicate Requeued(core: Core, i: nat, j: nat, q: Port, d: Connection)
    requires i < |core.ports| && j < |core.conns|
  {
    var p := core.ports[i];
    var c := core.conns[j];
    && q == p.(requests := q.requests, transfersInFlight := q.transfersInFlight, nextSeq := q.nextSeq)
    && d == c.(outstanding := d.outstanding, transfersInFlight := d.transfersInFlight)
    && OnlyFor(p.requests, q.requests, ConnId(core, j))
  }

  /** The counters of `q` and `d` are the true counts, and within the limits. */
  predicate Counted(q: Port, d: Connection, id: SlotId) {
    && q.nextSeq >= 1
    && Count(q.requests, LIVE) <= q.params.requestDepth
    && q.transfersInFlight == Count(q.requests, CARRIES) <= PORT_MAX_TRANSFERS_IN_FLIGHT
    && d.outstanding == Count(q.requests, OfConn(id)) <= q.params.maxOutstanding
    && d.transfersInFlight == Count(q.requests, CarriesFor(id)) <= PORT_MAX_TRANSFERS_IN_FLIGHT_PER_CONNECTION
  }

  lemma OthersKeepCounts(rs: RequestPool, after: RequestPool, id: SlotId, other: SlotId)
    requires OnlyFor(rs, after, id) && other != id
    ensures Count(after, OfConn(other)) == Count(rs, OfConn(other))
    ensures Count(after, CarriesFor(other)) == Count(rs, CarriesFor(other))
  {
    CountSame(after, rs, OfConn(other), OfConn(other));
    CountSame(after, rs, CarriesFor(other), CarriesFor(other));
  }

  lemma RequeueKeepsInv(core: Core, i: nat, j: nat, q: Port, d: Connection)
    requires Inv(core) && i < |core.ports| && j < |core.conns|
    requires core.ports[i].live && core.conns[j].state.Open? && core.conns[j].port == Key(core, i)
    requires Requeued(core, i, j, q, d) && Counted(q, d, ConnId(core, j))
    ensures Inv(Core(core.ports[i := q], core.conns[j := d]))
  {
    var after := Core(core.ports[i := q], core.conns[j := d]);
    var id := ConnId(core, j);
    assert PortOk(core, i) && ConnOk(core, j);
    forall x | 0 <= x < |after.ports| ensures PortOk(after, x) {
      assert PortOk(core, x);
      RequeuedRequestsOk(core, i, j, q, d, x);
    }
    forall x | 0 <= x < |after.conns| ensures ConnOk(after, x) {
      assert ConnOk(core, x);
      if x != j && core.conns[x].state.Open? {
        OthersKeepCounts(core.ports[i].requests, q.requests, id, ConnId(core, x));
      }
    }
    forall x | 0 <= x < |after.ports| ensures LimitsOk(after, x) {
      LimitsShrink(core, after, x);
    }
  }

  lemma RequeuedRequestsOk(core: Core, i: nat, j: nat, q: Port, d: Connection, x: nat)
    requires Inv(core) && i < |core.ports| && j < |core.conns| && x < |core.ports|
    requires core.conns[j].state.Open? && core.conns[j].port == Key(core, i)
    requires Requeued(core, i, j, q, d)
    ensures var after := Core(core.ports[i := q], core.conns[j := d]);
            forall k :: 0 <= k < |after.ports[x].requests| ==> RequestOk(after, x, after.ports[x].requests[k])
  {
    var after := Core(core.ports[i := q], core.conns[j := d]);
    assert PortOk(core, x);
    forall k | 0 <= k < |after.ports[x].requests| ensures RequestOk(after, x, after.ports[x].requests[k]) {
      assert RequestOk(core, x, core.ports[x].requests[k]);
    }
  }

  // ---- enqueue, dequeue, purge ----

  /** How the four counts of a pool change when entry `k` does. */
  lemma EntryCounts(rs: RequestPool, k: nat, r: Request, id: SlotId)
    requires k < |rs|
    ensures var after := rs[k := r];
            && Count(after, LIVE) + Bit(LIVE(rs[k])) == Count(rs, LIVE) + Bit(LIVE(r))
            && Count(after, CARRIES) + Bit(CARRIES(rs[k])) == Count(rs, CARRIES) + Bit(CARRIES(r))
            && Count(after, OfConn(id)) + Bit(OfConn(id)(rs[k])) == Count(rs, OfConn(id)) + Bit(OfConn(id)(r))
            && Count(after, CarriesFor(id)) + Bit(CarriesFor(id)(rs[k]))
               == Count(rs, CarriesFor(id)) + Bit(CarriesFor(id)(r))
  {
    CountUpdate(rs, k, r, LIVE);
    CountUpdate(rs, k, r, CARRIES);
    CountUpdate(rs, k, r, OfConn(id));
    CountUpdate(rs, k, r, CarriesFor(id));
  }

  lemma EnqueueKeepsInv(w: World, j: nat, i: nat, caller: Caller, rights: Rights, frame: Frame,
                        child: Option<TransferredCap>)
    requires Inv(w.core) && i < |w.core.ports| && j < |w.core.conns|
    requires w.core.ports[i].live && w.core.conns[j].state.Open? && w.core.conns[j].port == Key(w.core, i)
    requires HasRoom(w.core, j, i, child.Some?)
    ensures Inv(Enqueue(w, j, i, caller, rights, frame, child).core)
  {
    var core := w.core;
    var after := Enqueue(w, j, i, caller, rights, frame, child).core;
    var p := core.ports[i];
    assert PortOk(core, i) && ConnOk(core, j);
    var entry := FindFirst(p.requests, FREE_ENTRY);
    EntryCounts(p.requests, entry, after.ports[i].requests[entry], ConnId(core, j));
    RequeueKeepsInv(core, i, j, after.ports[i], after.conns[j]);
  }

  lemma DequeueKeepsInv(core: Core, i: nat, k: nat)
    requires Inv(core) && i < |core.ports| && core.ports[i].live
    requires k < PORT_MAX_REQUEST_QUEUE_DEPTH && core.ports[i].requests[k].IsLive()
    ensures Inv(Dequeue(core, i, k))
  {
    var p := core.ports[i];
    assert PortOk(core, i) && RequestOk(core, i, p.requests[k]);
    var j := p.requests[k].connection.slot;
    assert ConnOk(core, j);
    EntryCounts(p.requests, k, EMPTY_REQUEST, ConnId(core, j));
    var after := Dequeue(core, i, k);
    RequeueKeepsInv(core, i, j, after.ports[i], after.conns[j]);
  }

  /** Clearing a connection's requests leaves none of them and all of the others. */
  lemma ClearedCounts(rs: RequestPool, id: SlotId)
    ensures var after := Cleared(rs, OfConn(id));
            && Count(after, OfConn(id)) == 0 && Count(after, CarriesFor(id)) == 0
            && Count(after, LIVE) <= Count(rs, LIVE)
            && Count(after, CARRIES) + Count(rs, CarriesFor(id)) == Count(rs, CARRIES)
            && OnlyFor(rs, after, id)
  {
    var after := Cleared(rs, OfConn(id));
    CountZero(after, OfConn(id));
    CountZero(after, CarriesFor(id));
    CountLe(after, rs, LIVE, LIVE);
    CountSplit(rs, after, id, |rs|);
    assert rs[..|rs|] == rs && after[..|rs|] == after;
  }

  lemma {:induction false} CountSplit(rs: RequestPool, after: RequestPool, id: SlotId, k: nat)
    requires k <= |rs| && after == Cleared(rs, OfConn(id))
    ensures Count(after[..k], CARRIES) + Count(rs[..k], CarriesFor(id)) == Count(rs[..k], CARRIES)
  {
    if k > 0 {
      CountSplit(rs, after, id, k - 1);
      assert rs[..k][..k - 1] == rs[..k - 1] && after[..k][..k - 1] == after[..k - 1];
    }
  }

  lemma PurgeKeepsInv(w: World, i: nat, j: nat)
    requires Inv(w.core) && i < |w.core.ports| && j < |w.core.conns|
    requires w.core.ports[i].live && w.core.conns[j].state.Open? && w.core.conns[j].port == Key(w.core, i)
    ensures var after := Purge(w, i, j).core;
            && Inv(after) && Unqueued(after, j)
            && after.conns[j] == w.core.conns[j].(outstanding := 0, transfersInFlight := 0)
  {
    var core := w.core;
    var after := Purge(w, i, j).core;
    assert PortOk(core, i) && ConnOk(core, j);
    ClearedCounts(core.ports[i].requests, ConnId(core, j));
    RequeueKeepsInv(core, i, j, after.ports[i], after.conns[j]);
    forall x, k | 0 <= x < |after.ports| && 0 <= k < |after.ports[x].requests| && after.ports[x].requests[k].IsLive()
      ensures after.ports[x].requests[k].connection != ConnId(after, j)
    {
      assert PortOk(after, x) && RequestOk(after, x, after.ports[x].requests[k]);
    }
  }

  lemma BeginCloseKeepsInv(w: World, j: nat, kind: RecvKind, reason: u32)
    requires Inv(w.core) && j < |w.core.conns| && w.core.conns[j].state.Open? && !kind.RequestReceived?
    ensures var after := BeginClose(w, j, kind, reason).core;
            Inv(after) && after.conns[j].state == ClosePending(kind, reason)
  {
    assert ConnOk(w.core, j);
    var i := w.core.conns[j].port.slot;
    PurgeKeepsInv(w, i, j);
    var purged := Purge(w, i, j).core;
    DrawKeepsInv(purged, i);
    SetConnKeepsInv(DrawSeq(purged, i), j, BeginClose(w, j, kind, reason).core.conns[j]);
  }

  lemma EndByServerKeepsInv(w: World, i: nat, j: nat, reason: u32)
    requires Inv(w.core) && i < |w.core.ports| && j < |w.core.conns|
    requires w.core.ports[i].live && w.core.conns[j].state.Open? && w.core.conns[j].port == Key(w.core, i)
    ensures Inv(EndByServer(w, i, j, reason).core)
  {
    assert ConnOk(w.core, j);
    PurgeKeepsInv(w, i, j);
    var purged := Purge(w, i, j).core;
    DrawKeepsInv(purged, i);
    SetConnKeepsInv(DrawSeq(purged, i), j, EndByServer(w, i, j, reason).core.conns[j]);
  }

  lemma FreeKeepsInv(core: Core, j: nat)
    requires Inv(core) && j < |core.conns| && !core.conns[j].state.Open?
    ensures Inv(core.(conns := core.conns[j := core.conns[j].Freed()]))
  {
    assert ConnOk(core, j);
    NotOpenIsUnqueued(core, j);
    SetConnKeepsInv(core, j, core.conns[j].Freed());
  }

  // ---- teardown ----

  /** What tearing down port `key` makes of a connection. */
  function Ended(c: Connection, key: PortKey, closeSeq: u64): Connection {
    if c.state.Free? || c.port != key then c
    else
      match c.state
      case Open | ServerClosed(_) =>
        c.ClearEvents().(outstanding := 0, transfersInFlight := 0, closeSeq := closeSeq, state := ServerGone)
      case ClosePending(_, _) => c.Freed()
      case _ => c
  }

  lemma {:induction false} TeardownConnsShape(core: Core, effects: EffectList, i: nat, key: PortKey, k: nat)
    requires i < |core.ports| && k <= |core.conns|
    ensures var r := TeardownConns(core, effects, i, key, k).0;
            && SameQueue(core.ports[i], r.ports[i]) && r.ports[i].wake == core.ports[i].wake
            && r.ports == core.ports[i := r.ports[i]]
            && (forall j :: 0 <= j < k ==> r.conns[j] == Ended(core.conns[j], key, r.conns[j].closeSeq))
            && (forall j :: k <= j < |core.conns| ==> r.conns[j] == core.conns[j])
  {
    if k > 0 {
      TeardownConnsShape(core, effects, i, key, k - 1);
      var (c, e) := TeardownConns(core, effects, i, key, k - 1);
      TeardownConnShape(c, e, i, key, k - 1);
    }
  }

  lemma TeardownConnShape(core: Core, effects: EffectList, i: nat, key: PortKey, j: nat)
    requires i < |core.ports| && j < |core.conns|
    ensures var r := TeardownConn(core, effects, i, key, j).0;
            && |r.ports| == |core.ports|
            && SameQueue(core.ports[i], r.ports[i]) && r.ports[i].wake == core.ports[i].wake
            && r.ports == core.ports[i := r.ports[i]]
            && |r.conns| == |core.conns| && r.conns[j] == Ended(core.conns[j], key, r.conns[j].closeSeq)
            && r.conns == core.conns[j := r.conns[j]]
  {
  }

  lemma TeardownShape(w: World, i: nat)
    requires i < |w.core.ports|
    ensures var after := Teardown(w, i).core;
            && |after.ports| == |w.core.ports| && |after.conns| == |w.core.conns|
            && !after.ports[i].live && after.ports[i].requests == EmptyPool()
            && after.ports[i].generation == w.core.ports[i].generation
            && (forall x :: 0 <= x < |after.ports| && x != i ==> after.ports[x] == w.core.ports[x])
            && (forall j :: 0 <= j < |after.conns| ==>
                  after.conns[j] == Ended(w.core.conns[j], Key(w.core, i), after.conns[j].closeSeq))
  {
    var p := w.core.ports[i];
    var emptied := Core(w.core.ports[i := p.(requests := EmptyPool(), transfersInFlight := 0)], w.core.conns);
    var released := ReleaseChildren(w.table, w.effects, p.requests, LIVE, |p.requests|);
    TeardownConnsShape(emptied, released.1, i, Key(w.core, i), |w.core.conns|);
  }

  lemma TeardownKeepsInv(w: World, i: nat)
    requires Inv(w.core) && i < |w.core.ports| && w.core.ports[i].live
    ensures Inv(Teardown(w, i).core)
  {
    var core := w.core;
    var after := Teardown(w, i).core;
    var key := Key(core, i);
    TeardownShape(w, i);
    forall x | 0 <= x < |after.ports| ensures PortOk(after, x) {
      assert PortOk(core, x);
      var rs := after.ports[x].requests;
      forall k | 0 <= k < |rs| ensures RequestOk(after, x, rs[k]) {
        if x != i { assert RequestOk(core, x, rs[k]); }
      }
    }
    forall j | 0 <= j < |after.conns|
      ensures ConnOk(after, j) && NoNewBinding(core.conns[j], after.conns[j])
    {
      assert ConnOk(core, j);
      assert after.conns[j] == Ended(core.conns[j], key, after.conns[j].closeSeq);
    }
    forall x | 0 <= x < |after.ports| ensures LimitsOk(after, x) {
      LimitsShrink(core, after, x);
    }
  }

  // ---- registration and connection ----

  lemma RegisterKeepsInv(core: Core, resource: ResourceRef, server: u64, serverGeneration: u64, params: PortParams)
    requires Inv(core)
    ensures Inv(Register(core, resource, server, serverGeneration, params).0)
  {
    var (after, r) := Register(core, resource, server, serverGeneration, params);
    if r.Success? {
      var i := r.value.slot;
      assert PortOk(core, i);
      CountZero(after.ports[i].requests, LIVE);
      CountZero(after.ports[i].requests, CARRIES);
      forall x | 0 <= x < |after.ports| ensures PortOk(after, x) {
        assert PortOk(core, x);
        var rs := after.ports[x].requests;
        forall k | 0 <= k < |rs| ensures RequestOk(after, x, rs[k]) {
          assert RequestOk(core, x, rs[k]);
        }
      }
      forall j | 0 <= j < |after.conns| ensures ConnOk(after, j) {
        assert ConnOk(core, j);
      }
      forall x | 0 <= x < |after.ports| ensures LimitsOk(after, x) {
        assert LimitsOk(core, x);
        forall j | 0 <= j < |core.conns| ensures !BoundTo(Key(after, i))(core.conns[j]) { assert ConnOk(core, j); }
        CountZero(after.conns, BoundTo(Key(after, i)));
        forall h: u64 { CountZero(after.conns, BoundToBy(Key(after, i), h)); }
      }
    }
  }

  /** A Free slot becomes an Open connection under its next generation. */
  predicate Opened(core: Core, j: nat, d: Connection)
    requires j < |core.conns|
  {
    && core.conns[j].state.Free? && core.conns[j].generation < U32_MAX
    && d.state.Open? && d.generation == core.conns[j].generation + 1
    && d.outstanding == 0 && d.transfersInFlight == 0 && d.eventLen == 0
    && PortLive(core, d.port)
    && Count(core.conns, BoundTo(d.port)) < core.ports[d.port.slot].params.maxConnections
    && Count(core.conns, BoundToBy(d.port, d.client)) < core.ports[d.port.slot].params.maxConnectionsPerHolder
  }

  lemma OpenedLimits(core: Core, j: nat, d: Connection, x: nat)
    requires j < |core.conns| && x < |core.ports| && LimitsOk(core, x) && Opened(core, j, d)
    ensures LimitsOk(core.(conns := core.conns[j := d]), x)
  {
    var after := core.(conns := core.conns[j := d]);
    var key := Key(core, x);
    CountUpdate(core.conns, j, d, BoundTo(key));
    forall h: u64
      ensures core.ports[x].live ==>
                Count(after.conns, BoundToBy(key, h)) <= core.ports[x].params.maxConnectionsPerHolder
    {
      CountUpdate(core.conns, j, d, BoundToBy(key, h));
    }
  }

  lemma OpenedKeepsInv(core: Core, j: nat, d: Connection)
    requires Inv(core) && j < |core.conns| && Opened(core, j, d)
    ensures Inv(core.(conns := core.conns[j := d]))
  {
    var after := core.(conns := core.conns[j := d]);
    assert ConnOk(core, j) && PortOk(core, d.port.slot);
    forall x | 0 <= x < |after.ports| ensures PortOk(after, x) {
      assert PortOk(core, x);
      var rs := core.ports[x].requests;
      forall k | 0 <= k < |rs| ensures RequestOk(after, x, rs[k]) {
        assert RequestOk(core, x, rs[k]);
      }
    }
    forall y | 0 <= y < |after.conns| ensures ConnOk(after, y) {
      assert ConnOk(core, y);
      if y == j { NewIdIsUncounted(core, j, d.port.slot); }
    }
    forall x | 0 <= x < |after.ports| ensures LimitsOk(after, x) {
      OpenedLimits(core, j, d, x);
    }
  }

  lemma ConnectKeepsInv(core: Core, table: Slots, caller: Caller, handle: nat, rawClass: nat, id: u64)
    requires Inv(core)
    ensures Inv(Connect(core, table, caller, handle, rawClass, id).0)
  {
    var (after, r) := Connect(core, table, caller, handle, rawClass, id);
    if r.Success? {
      OpenedKeepsInv(core, r.value.slot, after.conns[r.value.slot]);
    }
  }

  /** No request names a generation its connection slot has not reached. */
  lemma NewIdIsUncounted(core: Core, j: nat, i: nat)
    requires Inv(core) && j < |core.conns| && i < |core.ports| && core.conns[j].generation < U32_MAX
    ensures var id := SlotId(j, core.conns[j].generation + 1);
            Count(core.ports[i].requests, OfConn(id)) == 0 && Count(core.ports[i].requests, CarriesFor(id)) == 0
  {
    var id := SlotId(j, core.conns[j].generation + 1);
    var rs := core.ports[i].requests;
    assert PortOk(core, i);
    forall k | 0 <= k < |rs| ensures !OfConn(id)(rs[k]) {
      assert RequestOk(core, i, rs[k]);
    }
    CountZero(rs, OfConn(id));
    CountZero(rs, CarriesFor(id));
  }

  // ---- every operation ----

  lemma ReauthorizeKeepsInv(w: World, j: nat, i: nat)
    requires Inv(w.core) && j < |w.core.conns| && i < |w.core.ports| && w.core.conns[j].state.Open?
    ensures Inv(ReauthorizeClient(w, j, i).0.core)
    ensures ReauthorizeClient(w, j, i).1.Success? ==> ReauthorizeClient(w, j, i).0 == w
  {
    if ReauthorizeClient(w, j, i).0 != w {
      BeginCloseKeepsInv(w, j, ClientRevoked, 0);
    }
  }

  lemma SendKeepsInv(w: World, caller: Caller, connection: nat, frame: Frame, transfer: Option<Transfer>)
    requires Inv(w.core)
    ensures Inv(Send(w, caller, connection, frame, transfer).0.core)
  {
    var found := ClientConnection(w.core, caller, connection);
    if found.Success? && w.core.conns[found.value].state.Open? {
      var j := found.value;
      assert ConnOk(w.core, j);
      var i := w.core.conns[j].port.slot;
      ReauthorizeKeepsInv(w, j, i);
      if HasRoom(w.core, j, i, transfer.Some?) {
        var rights := ReauthorizeClient(w, j, i).1;
        if rights.Success? {
          SendAuthorizedKeepsInv(w, j, i, caller, rights.value, frame, transfer);
        }
      }
    }
  }

  lemma SendAuthorizedKeepsInv(w: World, j: nat, i: nat, caller: Caller, rights: Rights, frame: Frame,
                               transfer: Option<Transfer>)
    requires Inv(w.core) && i < |w.core.ports| && j < |w.core.conns|
    requires w.core.ports[i].live && w.core.conns[j].state.Open? && w.core.conns[j].port == Key(w.core, i)
    requires HasRoom(w.core, j, i, transfer.Some?)
    ensures Inv(SendAuthorized(w, j, i, caller, rights, frame, transfer).0.core)
  {
    match transfer {
      case None => EnqueueKeepsInv(w, j, i, caller, rights, frame, None);
      case Some(t) =>
        var v := ValidateTransfer(w.table, caller.holder, t);
        if v.Success? {
          var (table, child) := InstallChild(w.table, w.core.ports[i].server, v.value);
          if child.Success? {
            EnqueueKeepsInv(w.(table := table), j, i, caller, rights, frame, Some(child.value));
          }
        }
    }
  }

  lemma RecvEventKeepsInv(w: World, caller: Caller, connection: nat)
    requires Inv(w.core)
    ensures Inv(RecvEvent(w, caller, connection).0.core)
  {
    var found := ClientConnection(w.core, caller, connection);
    if found.Success? {
      var j := found.value;
      var c := w.core.conns[j];
      assert ConnOk(w.core, j);
      if (c.state.Open? || c.state.ServerClosed?) && c.eventLen != 0 {
        if !c.state.Open? { NotOpenIsUnqueued(w.core, j); }
        SetConnKeepsInv(w.core, j, c.PopEvent());
      } else if c.state.Open? {
        ReauthorizeKeepsInv(w, j, c.port.slot);
      } else {
        FreeKeepsInv(w.core, j);
      }
    }
  }

  lemma CloseKeepsInv(w: World, caller: Caller, connection: nat, reason: u32)
    requires Inv(w.core)
    ensures Inv(Close(w, caller, connection, reason).0.core)
  {
    var found := ClientConnection(w.core, caller, connection);
    if found.Success? {
      var j := found.value;
      if w.core.conns[j].state.Open? {
        BeginCloseKeepsInv(w, j, ClientClosed, reason);
      } else {
        FreeKeepsInv(w.core, j);
      }
    }
  }

  lemma RecvKeepsInv(w: World, caller: Caller, serve: nat)
    requires Inv(w.core)
    ensures Inv(Recv(w, caller, serve).0.core)
  {
    var served := AuthorizeServe(w.core, w.table, caller, serve);
    if served.Success? {
      var i := served.value;
      var notice := FindLeast(w.core.conns, NoticeFor(Key(w.core, i)), CLOSE_SEQ);
      var entry := FindLeast(w.core.ports[i].requests, LIVE, REQUEST_SEQ);
      if notice.Some? {
        FreeKeepsInv(w.core, notice.value);
      } else if entry.Some? {
        DequeueKeepsInv(w.core, i, entry.value);
      }
    }
  }

  lemma PostKeepsInv(w: World, caller: Caller, serve: nat, connection: nat, frame: Frame)
    requires Inv(w.core)
    ensures Inv(Post(w, caller, serve, connection, frame).0.core)
  {
    var served := AuthorizeServe(w.core, w.table, caller, serve);
    if served.Success? {
      var i := served.value;
      var open := ServedOpen(w.core, i, connection);
      if open.Success? && w.core.conns[open.value].eventLen < w.core.ports[i].params.eventDepth {
        var j := open.value;
        assert ConnOk(w.core, j);
        DrawKeepsInv(w.core, i);
        SetConnKeepsInv(DrawSeq(w.core, i), j, w.core.conns[j].PushEvent(Event(w.core.ports[i].nextSeq, frame)));
      }
    }
  }

  lemma DisconnectKeepsInv(w: World, caller: Caller, serve: nat, connection: nat, reason: u32)
    requires Inv(w.core)
    ensures Inv(Disconnect(w, caller, serve, connection, reason).0.core)
  {
    var served := AuthorizeServe(w.core, w.table, caller, serve);
    if served.Success? {
      var open := ServedOpen(w.core, served.value, connection);
      if open.Success? {
        EndByServerKeepsInv(w, served.value, open.value, reason);
      }
    }
  }

  lemma BindWakeKeepsInv(w: World, caller: Caller, serve: nat, target: WorkSet, requestBit: nat, noticeBit: nat)
    requires Inv(w.core)
    ensures Inv(BindWake(w, caller, serve, target, requestBit, noticeBit).0.core)
  {
    var after := BindWake(w, caller, serve, target, requestBit, noticeBit).0.core;
    var served := AuthorizeServe(w.core, w.table, caller, serve);
    if served.Success? && after != w.core {
      SetPortKeepsInv(w.core, served.value, after.ports[served.value]);
    }
  }

  lemma {:induction false} ExitPortsKeepInv(w: World, holder: u64, generation: u64, k: nat)
    requires Inv(w.core) && k <= |w.core.ports|
    ensures Inv(ExitPorts(w, holder, generation, k).core)
  {
    if k > 0 {
      ExitPortsKeepInv(w, holder, generation, k - 1);
      var w1 := ExitPorts(w, holder, generation, k - 1);
      if w1.core.ports[k - 1].live {
        TeardownKeepsInv(w1, k - 1);
      }
    }
  }

  lemma {:induction false} ExitConnsKeepInv(w: World, holder: u64, generation: u64, k: nat)
    requires Inv(w.core) && k <= |w.core.conns|
    ensures Inv(ExitConns(w, holder, generation, k).core)
  {
    if k > 0 {
      ExitConnsKeepInv(w, holder, generation, k - 1);
      var w1 := ExitConns(w, holder, generation, k - 1);
      if w1.core.conns[k - 1].state.Open? {
        BeginCloseKeepsInv(w1, k - 1, ClientExited, 0);
      } else {
        FreeKeepsInv(w1.core, k - 1);
      }
    }
  }
}
