/** The engine itself: arrays of ports and connections updated in place, one method an operation. */
module PortEngine {
  import opened Wrappers
  import opened Capability
  import opened SlotOps
  import opened Table
  import opened Revocation
  import opened Counting
  import opened PortTypes
  import opened PortSteps
  import opened PortInvariant
  import opened EffectsList

  /** The pool with the first `k` entries that satisfy `p` cleared. */
  function ClearedTo(rs: RequestPool, p: Request -> bool, k: nat): RequestPool {
    seq(|rs|, i requires 0 <= i < |rs| => if i < k && p(rs[i]) then EMPTY_REQUEST else rs[i])
  }

  lemma ClearedToEnd(rs: RequestPool, p: Request -> bool)
    ensures ClearedTo(rs, p, 0) == rs && ClearedTo(rs, p, |rs|) == Cleared(rs, p)
  {
  }

  /** The port after the first `k` of its requests were considered for connection `id`. */
  function PurgedTo(p: Port, id: SlotId, k: nat): Port
    requires k <= |p.requests|
  {
    p.(requests := ClearedTo(p.requests, OfConn(id), k),
    transfersInFlight := SatSub(p.transfersInFlight, Count(p.requests[..k], CarriesFor(id))))
  }

  lemma PurgedToNext(p: Port, id: SlotId, k: nat)
    requires k < |p.requests|
    ensures var r := p.requests[k];
            var q := PurgedTo(p, id, k);
            && q.requests[k] == r
            && PurgedTo(p, id, k + 1) ==
               if OfConn(id)(r) then
                 q.(requests := q.requests[k := EMPTY_REQUEST],
                    transfersInFlight := SatSub(q.transfersInFlight, Bit(r.transfer.Some?)))
               else q
  {
    assert p.requests[..k + 1][..k] == p.requests[..k];
    var q := PurgedTo(p, id, k);
    if OfConn(id)(p.requests[k]) {
      assert ClearedTo(p.requests, OfConn(id), k + 1) == q.requests[k := EMPTY_REQUEST];
    } else {
      assert ClearedTo(p.requests, OfConn(id), k + 1) == q.requests;
    }
  }

  // ---- what a holder's exit counts ----

  function ServedPred(holder: u64, generation: u64): Port -> bool {
    (p: Port) => ServedBy(p, holder, generation)
  }

  function ClientPred(holder: u64, generation: u64): Connection -> bool {
    (c: Connection) => ClientOf(c, holder, generation)
  }

  lemma {:induction false} ExitPortsAhead(w: World, holder: u64, generation: u64, k: nat)
    requires k <= |w.core.ports|
    ensures forall x :: k <= x < |w.core.ports| ==> ExitPorts(w, holder, generation, k).core.ports[x] == w.core.ports[x]
  {
    hide Teardown;
    if k > 0 {
      ExitPortsAhead(w, holder, generation, k - 1);
      TeardownShape(ExitPorts(w, holder, generation, k - 1), k - 1);
    }
  }

  lemma ExitConnAhead(w: World, holder: u64, generation: u64, j: nat)
    requires j < |w.core.conns|
    ensures forall x :: j < x < |w.core.conns| ==> ExitConn(w, holder, generation, j).core.conns[x] == w.core.conns[x]
  {
  }

  lemma {:induction false} ExitConnsAhead(w: World, holder: u64, generation: u64, k: nat)
    requires k <= |w.core.conns|
    ensures forall x :: k <= x < |w.core.conns| ==> ExitConns(w, holder, generation, k).core.conns[x] == w.core.conns[x]
  {
    hide ExitConn;
    if k > 0 {
      ExitConnsAhead(w, holder, generation, k - 1);
      ExitConnAhead(ExitConns(w, holder, generation, k - 1), holder, generation, k - 1);
    }
  }

  lemma CountNext<T>(s: seq<T>, p: T -> bool, k: nat)
    requires k < |s|
    ensures Count(s[..k + 1], p) == Count(s[..k], p) + Bit(p(s[k]))
  {
    assert s[..k + 1][..k] == s[..k];
  }

  /** A pool whose first `k` entries have been emptied. */
  ghost function DrainedTo(rs: RequestPool, k: nat): RequestPool {
    seq(|rs|, l requires 0 <= l < |rs| => if l < k then EMPTY_REQUEST else rs[l])
  }

  lemma DrainNext(rs: RequestPool, k: nat)
    requires k < PORT_MAX_REQUEST_QUEUE_DEPTH
    ensures DrainedTo(rs, k)[k] == rs[k] && DrainedTo(rs, k)[k := EMPTY_REQUEST] == DrainedTo(rs, k + 1)
  {
  }

  lemma DrainEnds(rs: RequestPool)
    ensures DrainedTo(rs, 0) == rs && DrainedTo(rs, PORT_MAX_REQUEST_QUEUE_DEPTH) == EmptyPool()
  {
  }

  class PortCore {
    const ports: array<Port>
    const connections: array<Connection>

    ghost function State(): Core
      reads ports, connections
    {
      Core(ports[..], connections[..])
    }

    ghost predicate Valid()
      reads ports, connections
    {
      Inv(State())
    }

    constructor (portCount: nat, connectionCount: nat)
      ensures Valid() && fresh(ports) && fresh(connections)
      ensures State() == Core(seq(portCount, _ => EmptyPort()), seq(connectionCount, _ => EmptyConnection()))
    {
      ports := new Port[portCount](_ => EmptyPort());
      connections := new Connection[connectionCount](_ => EmptyConnection());
      new;
      assert ports[..] == seq(portCount, _ => EmptyPort());
      assert connections[..] == seq(connectionCount, _ => EmptyConnection());
    }

    /** The world this engine, a table and an effect list make up. */
    ghost function Now(table: CapabilityTable, effects: Effects): World
      requires effects.Valid()
      reads ports, connections, table.slots, effects, effects.items, effects.revoked
    {
      World(State(), table.slots[..], effects.View())
    }

    ghost predicate Ready(table: CapabilityTable, effects: Effects)
      reads table, table.slots, effects, effects.items, effects.revoked
    {
      table.Valid() && effects.Valid()
    }

    // ---- internals ----

    method ReleaseChildOf(table: CapabilityTable, cap: TransferredCap, effects: Effects)
      requires Ready(table, effects)
      modifies table, table.slots, effects, effects.revoked
      ensures Ready(table, effects)
      ensures (table.slots[..], effects.View()) == ReleaseChild(old(table.slots[..]), old(effects.View()), cap)
    {
      var decoded := DecodeId(cap.handle);
      if decoded.None? { return; }
      var record := RecordOf(table.slots[..], decoded.value);
      if record.Failure? { return; }
      var _ := table.RevokeAt(decoded.value.slot);
      var _ := table.ReleaseAt(decoded.value.slot);
      effects.NoteRevokedResource(record.value.resource);
    }

    /** One entry of the purge loop. */
    method PurgeEntry(table: CapabilityTable, i: nat, id: SlotId, k: nat, effects: Effects)
      requires Ready(table, effects) && i < ports.Length && k < PORT_MAX_REQUEST_QUEUE_DEPTH
      modifies ports, table, table.slots, effects, effects.revoked
      ensures Ready(table, effects)
      ensures var q := old(ports[i]);
              var r := q.requests[k];
              ports[..] == old(ports[..])[i :=
                if OfConn(id)(r) then
                  q.(requests := q.requests[k := EMPTY_REQUEST],
                     transfersInFlight := SatSub(q.transfersInFlight, Bit(r.transfer.Some?)))
                else q]
      ensures var r := old(ports[i]).requests[k];
              (table.slots[..], effects.View()) ==
                if OfConn(id)(r) && r.transfer.Some? then
                  ReleaseChild(old(table.slots[..]), old(effects.View()), r.transfer.value)
                else (old(table.slots[..]), old(effects.View()))
    {
      var request := ports[i].requests[k];
      if !request.IsLive() || request.connection != id { return; }
      if request.transfer.Some? {
        ReleaseChildOf(table, request.transfer.value, effects);
        ports[i] := ports[i].(transfersInFlight := SatSub(ports[i].transfersInFlight, 1));
      }
      ports[i] := ports[i].(requests := ports[i].requests[k := EMPTY_REQUEST]);
    }

    method PurgeConnection(table: CapabilityTable, i: nat, j: nat, effects: Effects)
      requires Ready(table, effects) && i < ports.Length && j < connections.Length
      modifies ports, connections, table, table.slots, effects, effects.revoked
      ensures Ready(table, effects)
      ensures Now(table, effects) == Purge(old(Now(table, effects)), i, j)
    {
      var id := SlotId(j, connections[j].generation);
      ghost var p := ports[i];
      ghost var t, e := table.slots[..], effects.View();
      ClearedToEnd(p.requests, OfConn(id));
      var k := 0;
      while k < PORT_MAX_REQUEST_QUEUE_DEPTH
        invariant 0 <= k <= PORT_MAX_REQUEST_QUEUE_DEPTH && Ready(table, effects)
        invariant ports[..] == old(ports[..])[i := PurgedTo(p, id, k)]
        invariant connections[..] == old(connections[..])
        invariant (table.slots[..], effects.View()) == ReleaseChildren(t, e, p.requests, OfConn(id), k)
      {
        PurgedToNext(p, id, k);
        PurgeEntry(table, i, id, k, effects);
        k := k + 1;
      }
      assert p.requests[..k] == p.requests;
      connections[j] := connections[j].(outstanding := 0, transfersInFlight := 0);
    }

    method Draw(i: nat) returns (seq_: u64)
      requires i < ports.Length
      modifies ports
      ensures seq_ == old(ports[i]).nextSeq && State() == DrawSeq(old(State()), i)
    {
      seq_ := ports[i].nextSeq;
      ports[i] := ports[i].(nextSeq := NextSeq(ports[i].nextSeq));
    }

    method BeginClosing(table: CapabilityTable, j: nat, kind: RecvKind, reason: u32, effects: Effects)
      requires Ready(table, effects) && j < connections.Length
      modifies ports, connections, table, table.slots, effects, effects.items, effects.revoked
      ensures Ready(table, effects)
      ensures Now(table, effects) == BeginClose(old(Now(table, effects)), j, kind, reason)
    {
      hide Purge, EffectList.Push, EffectList.PushSignal, CapabilityTable.Valid;
      var key := connections[j].port;
      if key.slot >= ports.Length || !ports[key.slot].live || ports[key.slot].generation != key.generation { return; }
      var i := key.slot;
      PurgeConnection(table, i, j, effects);
      var seq_ := Draw(i);
      connections[j] := connections[j].ClearEvents().(closeSeq := seq_, state := ClosePending(kind, reason));
      WakeForClose(key, ports[i].wake, SlotId(j, connections[j].generation), effects);
    }

    method WakeForClose(key: PortKey, wake: Option<WakeBinding>, id: SlotId, effects: Effects)
      requires effects.Valid()
      modifies effects, effects.items
      ensures effects.Valid()
      ensures effects.View()
           == old(effects.View()).Push(WakeServer(key)).PushSignal(wake, true)
              .Push(WakeSendSpace(key)).Push(WakeConnection(id))
    {
      effects.PushEffect(WakeServer(key));
      effects.Signal(wake, true);
      effects.PushEffect(WakeSendSpace(key));
      effects.PushEffect(WakeConnection(id));
    }

    method FreeTerminal(j: nat, effects: Effects)
      requires effects.Valid() && j < connections.Length
      modifies connections, effects, effects.items
      ensures effects.Valid()
      ensures connections[..] == old(connections[..])[j := old(connections[j]).Freed()]
      ensures effects.View() == old(effects.View()).Push(WakeConnection(SlotId(j, old(connections[j]).generation)))
    {
      var id := SlotId(j, connections[j].generation);
      connections[j] := connections[j].Freed();
      effects.PushEffect(WakeConnection(id));
    }

    /** Empties the queue of port `i`, releasing the children it still carried. */
    method DrainQueue(table: CapabilityTable, i: nat, effects: Effects)
      requires Ready(table, effects) && i < ports.Length
      modifies ports, table, table.slots, effects, effects.revoked
      ensures Ready(table, effects)
      ensures ports[..] == old(ports[..])[i := old(ports[i]).(requests := EmptyPool(), transfersInFlight := 0)]
      ensures (table.slots[..], effects.View())
           == ReleaseChildren(old(table.slots[..]), old(effects.View()), old(ports[i]).requests, LIVE,
                              PORT_MAX_REQUEST_QUEUE_DEPTH)
    {
      ghost var p, was := ports[i], ports[..];
      DrainEnds(p.requests);
      hide ReleaseChild, DrainedTo;
      ghost var t, e := table.slots[..], effects.View();
      var k := 0;
      while k < PORT_MAX_REQUEST_QUEUE_DEPTH
        invariant 0 <= k <= PORT_MAX_REQUEST_QUEUE_DEPTH && Ready(table, effects)
        invariant ports[..] == was[i := p.(requests := DrainedTo(p.requests, k))]
        invariant (table.slots[..], effects.View()) == ReleaseChildren(t, e, p.requests, LIVE, k)
      {
        DrainNext(p.requests, k);
        var request := ports[i].requests[k];
        if request.IsLive() && request.transfer.Some? {
          ReleaseChildOf(table, request.transfer.value, effects);
        }
        ports[i] := ports[i].(requests := ports[i].requests[k := EMPTY_REQUEST]);
        k := k + 1;
      }
      ports[i] := ports[i].(transfersInFlight := 0);
    }

    method EndConnection(i: nat, key: PortKey, j: nat, effects: Effects)
      requires effects.Valid() && i < ports.Length && j < connections.Length
      modifies ports, connections, effects, effects.items
      ensures effects.Valid()
      ensures (State(), effects.View()) == TeardownConn(old(State()), old(effects.View()), i, key, j)
    {
      var c := connections[j];
      if c.state.Free? || c.port != key { return; }
      match c.state {
        case Open | ServerClosed(_) =>
          var seq_ := Draw(i);
          connections[j] := c.ClearEvents().(outstanding := 0, transfersInFlight := 0, closeSeq := seq_,
                                             state := ServerGone);
          effects.PushEffect(WakeConnection(SlotId(j, c.generation)));
        case ClosePending(_, _) =>
          connections[j] := c.Freed();
        case _ =>
      }
    }

    method TeardownPort(table: CapabilityTable, i: nat, effects: Effects)
      requires Ready(table, effects) && i < ports.Length
      modifies ports, connections, table, table.slots, effects, effects.items, effects.revoked
      ensures Ready(table, effects)
      ensures Now(table, effects) == Teardown(old(Now(table, effects)), i)
    {
      hide ReleaseChildren, TeardownConn;
      var key := PortKey(i, ports[i].generation);
      DrainQueue(table, i, effects);
      ghost var core, e := State(), effects.View();
      var j := 0;
      while j < connections.Length
        invariant 0 <= j <= connections.Length && Ready(table, effects)
        invariant (State(), effects.View()) == TeardownConns(core, e, i, key, j)
        invariant table.slots[..]
                  == ReleaseChildren(old(table.slots[..]), old(effects.View()), old(ports[i]).requests, LIVE,
                                     PORT_MAX_REQUEST_QUEUE_DEPTH).0
      {
        EndConnection(i, key, j, effects);
        j := j + 1;
      }
      effects.PushEffect(WakeSendSpace(key));
      effects.PushEffect(WakeServer(key));
      ports[i] := ports[i].(live := false, wake := None, server := KERNEL, serverGeneration := 0);
    }

    method Reauthorize(table: CapabilityTable, j: nat, i: nat, effects: Effects) returns (r: Result<Rights, PortError>)
      requires Ready(table, effects) && j < connections.Length && i < ports.Length
      modifies ports, connections, table, table.slots, effects, effects.items, effects.revoked
      ensures Ready(table, effects)
      ensures (Now(table, effects), r) == ReauthorizeClient(old(Now(table, effects)), j, i)
    {
      hide BeginClose;
      var c, p := connections[j], ports[i];
      var auth := AuthorizeAt(table.slots[..], c.client, c.clientCap, p.resource, p.rights.connect);
      match auth {
        case Success(record) => r := Success(record.rights);
        case Failure(e) =>
          if e == RevokedCapability || e == StaleHandle {
            BeginClosing(table, j, ClientRevoked, 0, effects);
            r := Failure(Stale);
          } else {
            r := Failure(Denied);
          }
      }
    }

    /** Reclaims Revoked slots only if the table is full, then installs the child. */
    method InstallTransfer(table: CapabilityTable, server: u64, v: ValidTransfer)
      returns (r: Result<TransferredCap, PortError>)
      requires table.Valid()
      modifies table, table.slots
      ensures table.Valid()
      ensures (table.slots[..], r) == InstallChild(old(table.slots[..]), server, v)
    {
      if !HasInstallableSlot(table.slots[..]) {
        var _ := ReleaseRevoked(table);
        if !HasInstallableSlot(table.slots[..]) {
          return Failure(NoSpace);
        }
      }
      var h := table.InstallRecord(TransferChild(server, v));
      match h {
        case Failure(e) => r := Failure(CapabilityFault(e));
        case Success(child) =>
          r := Success(TransferredCap(EncodeId(child), EncodeId(v.buffer), v.byteLen, {Read}, SharedBuffer));
      }
    }

    method EnqueueRequest(j: nat, i: nat, caller: Caller, rights: Rights, frame: Frame, child: Option<TransferredCap>,
                          ghost table: CapabilityTable, effects: Effects)
      requires Ready(table, effects) && j < connections.Length && i < ports.Length
      requires FindFirst(ports[i].requests, FREE_ENTRY) < PORT_MAX_REQUEST_QUEUE_DEPTH
      modifies ports, connections, effects, effects.items
      ensures Ready(table, effects)
      ensures Now(table, effects) == Enqueue(old(Now(table, effects)), j, i, caller, rights, frame, child)
    {
      hide FindFirst, NextSeq, CapabilityTable.Valid;
      var p, c := ports[i], connections[j];
      var entry := FindFirst(p.requests, FREE_ENTRY);
      var request := Request(p.nextSeq, SlotId(j, c.generation), caller.holder, caller.domain, caller.generation,
                             rights, child, frame);
      ports[i] := p.(nextSeq := NextSeq(p.nextSeq), requests := p.requests[entry := request],
                     transfersInFlight := p.transfersInFlight + Bit(child.Some?));
      connections[j] := c.(outstanding := c.outstanding + 1,
                           transfersInFlight := c.transfersInFlight + Bit(child.Some?));
      effects.PushEffect(WakeServer(PortKey(i, p.generation)));
      effects.Signal(p.wake, false);
    }

    method SendAdmitted(table: CapabilityTable, j: nat, i: nat, caller: Caller, rights: Rights, frame: Frame,
                        transfer: Option<Transfer>, effects: Effects) returns (r: Result<(), PortError>)
      requires Ready(table, effects) && j < connections.Length && i < ports.Length
      modifies ports, connections, table, table.slots, effects, effects.items
      ensures Ready(table, effects)
      ensures (Now(table, effects), r)
              == SendAuthorized(old(Now(table, effects)), j, i, caller, rights, frame, transfer)
    {
      hide Enqueue, InstallChild, ValidateTransfer;
      var c, p := connections[j], ports[i];
      if c.outstanding >= p.params.maxOutstanding || Count(p.requests, LIVE) >= p.params.requestDepth {
        return Failure(WouldBlock);
      }
      if transfer.Some? && (c.transfersInFlight >= PORT_MAX_TRANSFERS_IN_FLIGHT_PER_CONNECTION
                            || p.transfersInFlight >= PORT_MAX_TRANSFERS_IN_FLIGHT) {
        return Failure(WouldBlock);
      }
      if FindFirst(p.requests, FREE_ENTRY) == PORT_MAX_REQUEST_QUEUE_DEPTH { return Failure(WouldBlock); }
      if transfer.None? {
        EnqueueRequest(j, i, caller, rights, frame, None, table, effects);
        return Success(());
      }
      var validated := ValidateTransfer(table.slots[..], caller.holder, transfer.value);
      if validated.Failure? { return Failure(validated.error); }
      var child := InstallTransfer(table, p.server, validated.value);
      if child.Failure? { return Failure(child.error); }
      EnqueueRequest(j, i, caller, rights, frame, Some(child.value), table, effects);
      r := Success(());
    }

    // ---- operations ----

    method RegisterPort(resource: ResourceRef, server: u64, serverGeneration: u64, params: PortParams)
      returns (r: Result<PortKey, RegistrationError>)
      requires Valid()
      modifies ports
      ensures Valid()
      ensures (State(), r) == Register(old(State()), resource, server, serverGeneration, params)
    {
      ghost var core := State();
      RegisterKeepsInv(core, resource, server, serverGeneration, params);
      var rights := PortRightsFor(resource.class_);
      if rights.None? { return Failure(ClassHasNoPort); }
      var checked := params.Validate();
      if checked.Failure? { return Failure(BadParams(checked.error)); }
      if FindFirst(ports[..], Serving(resource.class_, resource.id)) < ports.Length {
        return Failure(AlreadyRegistered);
      }
      var i := FindFirst(ports[..], REGISTRABLE);
      if i == ports.Length { return Failure(RegistryFull); }
      if server == KERNEL || serverGeneration == 0 { return Failure(ServerNotLive); }
      var g := ports[i].generation + 1;
      ports[i] := Port(g, true, resource, rights.value, server, serverGeneration, params, 1, 0, None,
                       ports[i].requests);
      r := Success(PortKey(i, g));
    }

    method UnregisterPort(table: CapabilityTable, key: PortKey, effects: Effects) returns (found: bool)
      requires Valid() && Ready(table, effects)
      modifies ports, connections, table, table.slots, effects, effects.items, effects.revoked
      ensures Valid() && Ready(table, effects)
      ensures (Now(table, effects), found) == Unregister(old(Now(table, effects)), key)
    {
      hide Teardown;
      found := key.slot < ports.Length && ports[key.slot].live && ports[key.slot].generation == key.generation;
      if found {
        TeardownKeepsInv(Now(table, effects), key.slot);
        TeardownPort(table, key.slot, effects);
      }
    }

    method ConnectClient(table: CapabilityTable, caller: Caller, handle: nat, rawClass: nat, id: u64)
      returns (r: Result<SlotId, PortError>)
      requires Valid() && table.Valid()
      modifies connections
      ensures Valid()
      ensures (State(), r) == Connect(old(State()), table.slots[..], caller, handle, rawClass, id)
    {
      hide ConnectTarget;
      ConnectKeepsInv(State(), table.slots[..], caller, handle, rawClass, id);
      var target := ConnectTarget(Core(ports[..], connections[..]), table.slots[..], caller, handle, rawClass, id);
      if target.Failure? { return Failure(target.error); }
      var (h, i) := target.value;
      var key := PortKey(i, ports[i].generation);
      if Count(connections[..], BoundToBy(key, caller.holder)) >= ports[i].params.maxConnectionsPerHolder {
        return Failure(NoSpace);
      }
      if Count(connections[..], BoundTo(key)) >= ports[i].params.maxConnections { return Failure(NoSpace); }
      var j := FindFirst(connections[..], ALLOCATABLE);
      if j == connections.Length { return Failure(NoSpace); }
      var g := connections[j].generation + 1;
      connections[j] := Connection(g, Open, key, caller.holder, caller.generation, caller.domain, h,
                                   0, 0, 0, 0, 0, connections[j].events);
      r := Success(SlotId(j, g));
    }

    method SendRequest(table: CapabilityTable, caller: Caller, connection: nat, frame: Frame,
                       transfer: Option<Transfer>,
                       effects: Effects) returns (r: Result<(), PortError>)
      requires Valid() && Ready(table, effects)
      modifies ports, connections, table, table.slots, effects, effects.items, effects.revoked
      ensures Valid() && Ready(table, effects)
      ensures (Now(table, effects), r) == Send(old(Now(table, effects)), caller, connection, frame, transfer)
    {
      hide ReauthorizeClient, SendAuthorized, ClientConnection;
      SendKeepsInv(Now(table, effects), caller, connection, frame, transfer);
      var found := ClientConnection(Core(ports[..], connections[..]), caller, connection);
      if found.Failure? { return Failure(found.error); }
      var j := found.value;
      match connections[j].state {
        case ServerClosed(_) => return Failure(PeerClosed);
        case Free | ClosePending(_, _) | ServerGone => return Failure(Stale);
        case Open =>
      }
      var key := connections[j].port;
      if key.slot >= ports.Length || !ports[key.slot].live || ports[key.slot].generation != key.generation {
        return Failure(Stale);
      }
      var auth := Reauthorize(table, j, key.slot, effects);
      if auth.Failure? { return Failure(auth.error); }
      r := SendAdmitted(table, j, key.slot, caller, auth.value, frame, transfer, effects);
    }

    method ReceiveEvent(table: CapabilityTable, caller: Caller, connection: nat, effects: Effects)
      returns (r: Result<EventRecord, PortError>)
      requires Valid() && Ready(table, effects)
      modifies ports, connections, table, table.slots, effects, effects.items, effects.revoked
      ensures Valid() && Ready(table, effects)
      ensures (Now(table, effects), r) == RecvEvent(old(Now(table, effects)), caller, connection)
    {
      hide ReauthorizeClient, ClientConnection;
      RecvEventKeepsInv(Now(table, effects), caller, connection);
      var found := ClientConnection(Core(ports[..], connections[..]), caller, connection);
      if found.Failure? { return Failure(found.error); }
      var j := found.value;
      var c := connections[j];
      if (c.state.Open? || c.state.ServerClosed?) && c.eventLen != 0 {
        var e := c.events[c.eventHead];
        connections[j] := c.PopEvent();
        return Success(EventRecord(FrameEvent, 0, e.seq_, e.frame));
      }
      match c.state {
        case Open =>
          if c.port.slot >= ports.Length || !ports[c.port.slot].live
             || ports[c.port.slot].generation != c.port.generation {
            return Failure(Stale);
          }
          var auth := Reauthorize(table, j, c.port.slot, effects);
          r := Failure(if auth.Failure? then auth.error else WouldBlock);
        case ServerClosed(reason) =>
          FreeTerminal(j, effects);
          r := Success(EventRecord(Disconnected, reason, c.closeSeq, ZERO_FRAME));
        case ServerGone =>
          FreeTerminal(j, effects);
          r := Success(EventRecord(ServerGoneEvent, 0, c.closeSeq, ZERO_FRAME));
        case Free | ClosePending(_, _) => r := Failure(Stale);
      }
    }

    method CloseConnection(table: CapabilityTable, caller: Caller, connection: nat, reason: u32, effects: Effects)
      returns (r: Result<(), PortError>)
      requires Valid() && Ready(table, effects)
      modifies ports, connections, table, table.slots, effects, effects.items, effects.revoked
      ensures Valid() && Ready(table, effects)
      ensures (Now(table, effects), r) == Close(old(Now(table, effects)), caller, connection, reason)
    {
      hide BeginClose, ClientConnection;
      CloseKeepsInv(Now(table, effects), caller, connection, reason);
      var found := ClientConnection(Core(ports[..], connections[..]), caller, connection);
      if found.Failure? { return Failure(found.error); }
      var j := found.value;
      match connections[j].state {
        case Open =>
          BeginClosing(table, j, ClientClosed, reason, effects);
          r := Success(());
        case ServerClosed(_) | ServerGone =>
          FreeTerminal(j, effects);
          r := Success(());
        case Free | ClosePending(_, _) => r := Failure(Stale);
      }
    }

    method DequeueRequest(i: nat, k: nat)
      requires i < ports.Length && k < PORT_MAX_REQUEST_QUEUE_DEPTH
      modifies ports, connections
      ensures State() == Dequeue(old(State()), i, k)
    {
      var request := ports[i].requests[k];
      var carried := Bit(request.transfer.Some?);
      ports[i] := ports[i].(requests := ports[i].requests[k := EMPTY_REQUEST],
                            transfersInFlight := SatSub(ports[i].transfersInFlight, carried));
      var j := request.connection.slot;
      if j < connections.Length && connections[j].generation == request.connection.generation {
        connections[j] := connections[j].(outstanding := SatSub(connections[j].outstanding, 1),
                                          transfersInFlight := SatSub(connections[j].transfersInFlight, carried));
      }
    }

    method Receive(table: CapabilityTable, caller: Caller, serve: nat, effects: Effects)
      returns (r: Result<RecvRecord, PortError>)
      requires Valid() && Ready(table, effects)
      modifies ports, connections, effects, effects.items
      ensures Valid() && Ready(table, effects)
      ensures (Now(table, effects), r) == Recv(old(Now(table, effects)), caller, serve)
    {
      hide Dequeue, AuthorizeServe;
      RecvKeepsInv(Now(table, effects), caller, serve);
      var served := AuthorizeServe(Core(ports[..], connections[..]), table.slots[..], caller, serve);
      if served.Failure? { return Failure(served.error); }
      var i := served.value;
      var key := PortKey(i, ports[i].generation);
      var notice := FindLeast(connections[..], NoticeFor(key), CLOSE_SEQ);
      if notice.Some? {
        r := Success(NoticeRecord(Core(ports[..], connections[..]), notice.value));
        connections[notice.value] := connections[notice.value].Freed();
        return;
      }
      var entry := FindLeast(ports[i].requests, LIVE, REQUEST_SEQ);
      if entry.None? { return Failure(WouldBlock); }
      var request := ports[i].requests[entry.value];
      DequeueRequest(i, entry.value);
      effects.PushEffect(WakeSendSpace(key));
      r := Success(RecvRecord(RequestReceived, 0, request.ToEnvelope(), request.frame));
    }

    method PostEvent(table: CapabilityTable, caller: Caller, serve: nat, connection: nat, frame: Frame,
                     effects: Effects)
      returns (r: Result<(), PortError>)
      requires Valid() && Ready(table, effects)
      modifies ports, connections, effects, effects.items
      ensures Valid() && Ready(table, effects)
      ensures (Now(table, effects), r) == Post(old(Now(table, effects)), caller, serve, connection, frame)
    {
      hide ServedOpen, AuthorizeServe;
      PostKeepsInv(Now(table, effects), caller, serve, connection, frame);
      var served := AuthorizeServe(Core(ports[..], connections[..]), table.slots[..], caller, serve);
      if served.Failure? { return Failure(served.error); }
      var i := served.value;
      var open := ServedOpen(Core(ports[..], connections[..]), i, connection);
      if open.Failure? { return Failure(open.error); }
      var j := open.value;
      if connections[j].eventLen >= ports[i].params.eventDepth { return Failure(WouldBlock); }
      var seq_ := Draw(i);
      connections[j] := connections[j].PushEvent(Event(seq_, frame));
      effects.PushEffect(WakeConnection(SlotId(j, connections[j].generation)));
      r := Success(());
    }

    method DisconnectClient(table: CapabilityTable, caller: Caller, serve: nat, connection: nat, reason: u32,
                            effects: Effects)
      returns (r: Result<(), PortError>)
      requires Valid() && Ready(table, effects)
      modifies ports, connections, table, table.slots, effects, effects.items, effects.revoked
      ensures Valid() && Ready(table, effects)
      ensures (Now(table, effects), r) == Disconnect(old(Now(table, effects)), caller, serve, connection, reason)
    {
      hide ServedOpen, AuthorizeServe, Purge;
      DisconnectKeepsInv(Now(table, effects), caller, serve, connection, reason);
      var served := AuthorizeServe(Core(ports[..], connections[..]), table.slots[..], caller, serve);
      if served.Failure? { return Failure(served.error); }
      var i := served.value;
      var open := ServedOpen(Core(ports[..], connections[..]), i, connection);
      if open.Failure? { return Failure(open.error); }
      var j := open.value;
      PurgeConnection(table, i, j, effects);
      var seq_ := Draw(i);
      connections[j] := connections[j].(closeSeq := seq_, state := ServerClosed(reason));
      effects.PushEffect(WakeConnection(SlotId(j, connections[j].generation)));
      effects.PushEffect(WakeSendSpace(PortKey(i, ports[i].generation)));
      r := Success(());
    }

    method BindWorkSet(table: CapabilityTable, caller: Caller, serve: nat, target: WorkSet, requestBit: nat,
                       noticeBit: nat,
                       effects: Effects) returns (r: Result<(), PortError>)
      requires Valid() && Ready(table, effects)
      modifies ports, effects, effects.items
      ensures Valid() && Ready(table, effects)
      ensures (Now(table, effects), r)
              == BindWake(old(Now(table, effects)), caller, serve, target, requestBit, noticeBit)
    {
      hide AuthorizeServe;
      BindWakeKeepsInv(Now(table, effects), caller, serve, target, requestBit, noticeBit);
      if requestBit >= WORK_SET_BITS || noticeBit >= WORK_SET_BITS { return Failure(Invalid); }
      var served := AuthorizeServe(Core(ports[..], connections[..]), table.slots[..], caller, serve);
      if served.Failure? { return Failure(served.error); }
      var i := served.value;
      ports[i] := ports[i].(wake := Some(WakeBinding(target, requestBit, noticeBit)));
      if Count(ports[i].requests, LIVE) != 0 {
        effects.PushEffect(SignalBit(target, requestBit));
      }
      if FindFirst(connections[..], NoticeFor(PortKey(i, ports[i].generation))) < connections.Length {
        effects.PushEffect(SignalBit(target, noticeBit));
      }
      r := Success(());
    }

    method ExitServedPorts(table: CapabilityTable, holder: u64, generation: u64, effects: Effects) returns (served: nat)
      requires Ready(table, effects)
      modifies ports, connections, table, table.slots, effects, effects.items, effects.revoked
      ensures Ready(table, effects)
      ensures Now(table, effects) == ExitPorts(old(Now(table, effects)), holder, generation, ports.Length)
      ensures served == Count(old(ports[..]), ServedPred(holder, generation))
    {
      hide Teardown;
      ghost var w := Now(table, effects);
      served := 0;
      var i := 0;
      while i < ports.Length
        invariant 0 <= i <= ports.Length && Ready(table, effects)
        invariant served == Count(w.core.ports[..i], ServedPred(holder, generation))
        invariant Now(table, effects) == ExitPorts(w, holder, generation, i)
      {
        ExitPortsAhead(w, holder, generation, i);
        CountNext(w.core.ports, ServedPred(holder, generation), i);
        if ServedBy(ports[i], holder, generation) {
          TeardownPort(table, i, effects);
          served := served + 1;
        }
        i := i + 1;
      }
      assert w.core.ports[..i] == w.core.ports;
    }

    method ExitClients(table: CapabilityTable, holder: u64, generation: u64, effects: Effects) returns (clients: nat)
      requires Ready(table, effects)
      modifies ports, connections, table, table.slots, effects, effects.items, effects.revoked
      ensures Ready(table, effects)
      ensures Now(table, effects) == ExitConns(old(Now(table, effects)), holder, generation, connections.Length)
      ensures clients == Count(old(connections[..]), ClientPred(holder, generation))
    {
      hide BeginClose;
      ghost var w := Now(table, effects);
      clients := 0;
      var j := 0;
      while j < connections.Length
        invariant 0 <= j <= connections.Length && Ready(table, effects)
        invariant clients == Count(w.core.conns[..j], ClientPred(holder, generation))
        invariant Now(table, effects) == ExitConns(w, holder, generation, j)
      {
        ExitConnsAhead(w, holder, generation, j);
        CountNext(w.core.conns, ClientPred(holder, generation), j);
        if ClientOf(connections[j], holder, generation) {
          if connections[j].state.Open? {
            BeginClosing(table, j, ClientExited, 0, effects);
          } else {
            FreeTerminal(j, effects);
          }
          clients := clients + 1;
        }
        j := j + 1;
      }
      assert w.core.conns[..j] == w.core.conns;
    }

    /** Ports the holder served go away, then its client connections end. */
    method HolderExit(table: CapabilityTable, holder: u64, generation: u64, effects: Effects)
      returns (servedPorts: nat, clientConnections: nat)
      requires Valid() && Ready(table, effects)
      modifies ports, connections, table, table.slots, effects, effects.items, effects.revoked
      ensures Valid() && Ready(table, effects)
      ensures Now(table, effects) == OnHolderExit(old(Now(table, effects)), holder, generation)
      ensures servedPorts == Count(old(ports[..]), ServedPred(holder, generation))
      ensures clientConnections
           == Count(ExitPorts(old(Now(table, effects)), holder, generation, ports.Length).core.conns,
                    ClientPred(holder, generation))
    {
      hide Inv, ExitPorts, ExitConns;
      ghost var w := Now(table, effects);
      servedPorts := ExitServedPorts(table, holder, generation, effects);
      ghost var w1 := Now(table, effects);
      ExitPortsKeepInv(w, holder, generation, ports.Length);
      ExitConnsKeepInv(w1, holder, generation, connections.Length);
      clientConnections := ExitClients(table, holder, generation, effects);
    }
  }
}
