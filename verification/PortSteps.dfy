/**
 The port engine as a state machine on values: each function is the whole effect of one engine
 operation on the ports, the connections, the capability table and the owed effects.
 */
module PortSteps {
  import opened Wrappers
  import opened Capability
  import opened SlotOps
  import opened Counting
  import opened PortTypes

  datatype Core = Core(ports: seq<Port>, conns: seq<Connection>)

  /** Everything an operation may change. */
  datatype World = World(core: Core, table: Slots, effects: EffectList)

  // ---- lookup ----

  function Key(core: Core, i: nat): PortKey
    requires i < |core.ports|
  {
    PortKey(i, core.ports[i].generation)
  }

  /** An allocated connection always carries a nonzero generation. */
  function ConnId(core: Core, j: nat): SlotId
    requires j < |core.conns|
  {
    SlotId(j, core.conns[j].generation)
  }

  predicate PortLive(core: Core, key: PortKey) {
    key.slot < |core.ports| && core.ports[key.slot].live && core.ports[key.slot].generation == key.generation
  }

  function ConnectionIndex(core: Core, raw: nat): (r: Result<nat, PortError>)
    ensures r.Success? ==> r.value < |core.conns| && !core.conns[r.value].state.Free?
  {
    match DecodeId(raw)
    case None => Failure(Invalid)
    case Some(id) =>
      if id.slot >= |core.conns| then Failure(Stale)
      else if core.conns[id.slot].state.Free? || core.conns[id.slot].generation != id.generation then Failure(Stale)
      else Success(id.slot)
  }

  function ClientConnection(core: Core, caller: Caller, raw: nat): (r: Result<nat, PortError>)
    ensures r.Success? ==>
              && r.value < |core.conns| && !core.conns[r.value].state.Free?
              && core.conns[r.value].client == caller.holder
              && core.conns[r.value].clientGeneration == caller.generation
  {
    if !caller.IsProcess() then Failure(Denied)
    else
      match ConnectionIndex(core, raw)
      case Failure(e) => Failure(e)
      case Success(j) =>
        if core.conns[j].client != caller.holder then Failure(Denied)
        else if core.conns[j].clientGeneration != caller.generation then Failure(Stale)
        else Success(j)
  }

  function ServedConnection(core: Core, i: nat, raw: nat): Result<nat, PortError>
    requires i < |core.ports|
  {
    match ConnectionIndex(core, raw)
    case Failure(e) => Failure(e)
    case Success(j) => if core.conns[j].port != Key(core, i) then Failure(Stale) else Success(j)
  }

  function CapabilityFault(e: CapabilityError): PortError {
    match e
    case InvalidHandle | InvalidRights => Invalid
    case StaleHandle | RevokedCapability => Stale
    case UnauthorizedHolder | WrongResource | MissingRight | RightsWidening | NotDelegable => Denied
    case DelegationDepthExceeded | CapacityExhausted => NoSpace
  }

  /** The live port the caller serves, by holding its serve capability. */
  function AuthorizeServe(core: Core, table: Slots, caller: Caller, serve: nat): (r: Result<nat, PortError>)
    ensures r.Success? ==>
              && r.value < |core.ports| && core.ports[r.value].live
              && core.ports[r.value].server == caller.holder
              && core.ports[r.value].serverGeneration == caller.generation
  {
    match DecodeId(serve)
    case None => Failure(Invalid)
    case Some(h) =>
      match RecordOf(table, h)
      case Failure(e) => Failure(CapabilityFault(e))
      case Success(r) =>
        var i := FindFirst(core.ports, ServingExactly(r.resource));
        if i == |core.ports| then
          Failure(if FindFirst(core.ports, Serving(r.resource.class_, r.resource.id)) < |core.ports| then Stale
                  else Denied)
        else
          var p := core.ports[i];
          if !caller.IsProcess() || caller.holder != p.server || caller.generation != p.serverGeneration then
            Failure(Denied)
          else
            match AuthorizeAt(table, caller.holder, h, p.resource, p.rights.serve)
            case Failure(e) => Failure(CapabilityFault(e))
            case Success(_) => Success(i)
  }

  // ---- capability transfer ----

  datatype AttestationFault = FaultInvalid | FaultAccess | FaultNoSpace | FaultOther

  datatype Transfer = Transfer(handle: SlotId, attestation: Result<(SlotId, u64), AttestationFault>)

  datatype ValidTransfer = ValidTransfer(parent: Record, provenance: Provenance, buffer: SlotId, byteLen: u64)

  function AttestationError(f: AttestationFault): PortError {
    match f
    case FaultInvalid => Invalid
    case FaultAccess => Denied
    case FaultNoSpace => NoSpace
    case FaultOther => Stale
  }

  function ValidateTransfer(table: Slots, sender: u64, t: Transfer): Result<ValidTransfer, PortError> {
    match RecordOf(table, t.handle)
    case Failure(e) => Failure(CapabilityFault(e))
    case Success(parent) =>
      if parent.holder != sender || parent.resource.class_ != SharedBuffer then Failure(Denied)
      else
        var granted := ValidateDelegation(parent, t.handle, sender, {Read});
        if granted.Failure? then Failure(CapabilityFault(granted.error))
        else if DecodeId(parent.resource.id).None? then Failure(Invalid)
        else if t.attestation.Failure? then Failure(AttestationError(t.attestation.error))
        else if t.attestation.value.0 != DecodeId(parent.resource.id).value then Failure(Stale)
        else
          match ChildOf(t.handle, parent.provenance)
          case Failure(e) => Failure(CapabilityFault(e))
          case Success(p) => Success(ValidTransfer(parent, p, t.attestation.value.0, t.attestation.value.1))
  }

  predicate HasInstallableSlot(table: Slots) {
    FirstUsable(table) < |table|
  }

  /** Reclaims Revoked slots only if nothing is installable. */
  function MakeRoom(table: Slots): Slots {
    if HasInstallableSlot(table) then table else ReleaseAll(table, RevokedSet(table))
  }

  function TransferChild(server: u64, v: ValidTransfer): Record {
    Record(Live, server, v.parent.resource, {Read}, v.provenance, 0)
  }

  function InstallChild(table: Slots, server: u64, v: ValidTransfer): (Slots, Result<TransferredCap, PortError>) {
    var room := MakeRoom(table);
    if !HasInstallableSlot(room) then (room, Failure(NoSpace))
    else
      var (after, h) := Install(room, TransferChild(server, v));
      match h
      case Failure(e) => (after, Failure(CapabilityFault(e)))
      case Success(child) =>
        (after, Success(TransferredCap(EncodeId(child), EncodeId(v.buffer), v.byteLen, {Read}, SharedBuffer)))
  }

  /** Revokes and releases an undelivered child if its slot still holds it. */
  function ReleaseChild(table: Slots, effects: EffectList, cap: TransferredCap): (Slots, EffectList) {
    match DecodeId(cap.handle)
    case None => (table, effects)
    case Some(h) =>
      match RecordOf(table, h)
      case Failure(_) => (table, effects)
      case Success(r) => (ReleaseSlot(RevokeSlot(table, h.slot), h.slot), effects.NoteRevoked(r.resource))
  }

  /** Releases, in pool order, the children of the first `k` requests that satisfy `p`. */
  function ReleaseChildren(table: Slots, effects: EffectList, rs: RequestPool, p: Request -> bool, k: nat)
    : (Slots, EffectList)
    requires k <= |rs|
  {
    if k == 0 then (table, effects)
    else
      var (t, e) := ReleaseChildren(table, effects, rs, p, k - 1);
      if p(rs[k - 1]) && rs[k - 1].transfer.Some? then ReleaseChild(t, e, rs[k - 1].transfer.value) else (t, e)
  }

  // ---- ending connections ----

  function SatSub(a: nat, b: nat): nat { if a < b then 0 else a - b }

  /** Drops the undelivered requests of connection `j`. */
  function Purge(w: World, i: nat, j: nat): World
    requires i < |w.core.ports| && j < |w.core.conns|
  {
    var id := ConnId(w.core, j);
    var p := w.core.ports[i];
    var (t, e) := ReleaseChildren(w.table, w.effects, p.requests, OfConn(id), |p.requests|);
    var ports := w.core.ports[i := p.(requests := Cleared(p.requests, OfConn(id)),
                                     transfersInFlight := SatSub(p.transfersInFlight,
                                                                 Count(p.requests, CarriesFor(id))))];
    var conns := w.core.conns[j := w.core.conns[j].(outstanding := 0, transfersInFlight := 0)];
    World(Core(ports, conns), t, e)
  }

  function DrawSeq(core: Core, i: nat): Core
    requires i < |core.ports|
  {
    core.(ports := core.ports[i := core.ports[i].(nextSeq := NextSeq(core.ports[i].nextSeq))])
  }

  /** Open to ClosePending: purge, discard events, notify the server. */
  function BeginClose(w: World, j: nat, kind: RecvKind, reason: u32): World
    requires j < |w.core.conns|
  {
    var key := w.core.conns[j].port;
    if !PortLive(w.core, key) then w
    else
      var i := key.slot;
      var w1 := Purge(w, i, j);
      var seq_ := w1.core.ports[i].nextSeq;
      var core := DrawSeq(w1.core, i);
      var conn := core.conns[j].ClearEvents().(closeSeq := seq_, state := ClosePending(kind, reason));
      var effects := w1.effects.Push(WakeServer(key)).PushSignal(core.ports[i].wake, true)
                     .Push(WakeSendSpace(key)).Push(WakeConnection(ConnId(core, j)));
      World(core.(conns := core.conns[j := conn]), w1.table, effects)
  }

  function ConsumeTerminal(w: World, j: nat): World
    requires j < |w.core.conns|
  {
    w.(core := w.core.(conns := w.core.conns[j := w.core.conns[j].Freed()]),
    effects := w.effects.Push(WakeConnection(ConnId(w.core, j))))
  }

  /** What tearing down port `i` does to connection `j`. */
  function TeardownConn(core: Core, effects: EffectList, i: nat, key: PortKey, j: nat): (Core, EffectList)
    requires i < |core.ports| && j < |core.conns|
  {
    var c := core.conns[j];
    if c.state.Free? || c.port != key then (core, effects)
    else
      match c.state
      case Open | ServerClosed(_) =>
        var conn := c.ClearEvents().(outstanding := 0, transfersInFlight := 0,
                                     closeSeq := core.ports[i].nextSeq, state := ServerGone);
        var drawn := DrawSeq(core, i);
        (drawn.(conns := drawn.conns[j := conn]), effects.Push(WakeConnection(ConnId(core, j))))
      case ClosePending(_, _) => (core.(conns := core.conns[j := c.Freed()]), effects)
      case _ => (core, effects)
  }

  function TeardownConns(core: Core, effects: EffectList, i: nat, key: PortKey, k: nat): (r: (Core, EffectList))
    requires i < |core.ports| && k <= |core.conns|
    ensures |r.0.ports| == |core.ports| && |r.0.conns| == |core.conns|
  {
    if k == 0 then (core, effects)
    else
      var (c, e) := TeardownConns(core, effects, i, key, k - 1);
      TeardownConn(c, e, i, key, k - 1)
  }

  /** The port's queue empties and its connections end, before it goes dead. */
  function TeardownDrain(w: World, i: nat): (r: World)
    requires i < |w.core.ports|
    ensures |r.core.ports| == |w.core.ports| && |r.core.conns| == |w.core.conns|
  {
    var p := w.core.ports[i];
    var released := ReleaseChildren(w.table, w.effects, p.requests, LIVE, |p.requests|);
    var emptied := Core(w.core.ports[i := p.(requests := EmptyPool(), transfersInFlight := 0)], w.core.conns);
    var ended := TeardownConns(emptied, released.1, i, Key(w.core, i), |w.core.conns|);
    World(ended.0, released.0, ended.1)
  }

  function Teardown(w: World, i: nat): World
    requires i < |w.core.ports|
  {
    var key := Key(w.core, i);
    var w1 := TeardownDrain(w, i);
    var dead := w1.core.ports[i].(live := false, wake := None, server := KERNEL, serverGeneration := 0);
    World(Core(w1.core.ports[i := dead], w1.core.conns), w1.table,
          w1.effects.Push(WakeSendSpace(key)).Push(WakeServer(key)))
  }

  /** Re-authorizes the client's connect capability; a revoked one closes the connection. */
  function ReauthorizeClient(w: World, j: nat, i: nat): (World, Result<Rights, PortError>)
    requires j < |w.core.conns| && i < |w.core.ports|
  {
    var c := w.core.conns[j];
    var p := w.core.ports[i];
    match AuthorizeAt(w.table, c.client, c.clientCap, p.resource, p.rights.connect)
    case Success(r) => (w, Success(r.rights))
    case Failure(e) =>
      if e == RevokedCapability || e == StaleHandle then (BeginClose(w, j, ClientRevoked, 0), Failure(Stale))
      else (w, Failure(Denied))
  }

  // ---- registration ----

  function Register(core: Core, resource: ResourceRef, server: u64, serverGeneration: u64, params: PortParams)
    : (Core, Result<PortKey, RegistrationError>)
  {
    var rights := PortRightsFor(resource.class_);
    if rights.None? then (core, Failure(ClassHasNoPort))
    else if params.Validate().Failure? then (core, Failure(BadParams(params.Validate().error)))
    else if FindFirst(core.ports, Serving(resource.class_, resource.id)) < |core.ports| then
      (core, Failure(AlreadyRegistered))
    else
      var i := FindFirst(core.ports, REGISTRABLE);
      if i == |core.ports| then (core, Failure(RegistryFull))
      else if server == KERNEL || serverGeneration == 0 then (core, Failure(ServerNotLive))
      else
        var old_ := core.ports[i];
        var port := Port(old_.generation + 1, true, resource, rights.value, server, serverGeneration, params, 1, 0,
                         None, old_.requests);
        (core.(ports := core.ports[i := port]), Success(PortKey(i, port.generation)))
  }

  function Unregister(w: World, key: PortKey): (World, bool) {
    if PortLive(w.core, key) then (Teardown(w, key.slot), true) else (w, false)
  }

  // ---- client operations ----

  /** The checks of a connect before any limit: the handle and the port it opens. */
  function ConnectTarget(core: Core, table: Slots, caller: Caller, handle: nat, rawClass: nat, id: u64)
    : (r: Result<(SlotId, nat), PortError>)
    ensures r.Success? ==> r.value.1 < |core.ports|
  {
    match DecodeClass(rawClass)
    case Failure(e) => Failure(e)
    case Success(c) =>
      if !caller.IsProcess() then Failure(Denied)
      else if DecodeId(handle).None? then Failure(Invalid)
      else
        var h := DecodeId(handle).value;
        match RecordOf(table, h)
        case Failure(e) => Failure(CapabilityFault(e))
        case Success(r) =>
          var i := FindFirst(core.ports, Serving(c, id));
          if i == |core.ports| then Failure(Refused)
          else if r.resource.class_ != c || r.resource.id != id then Failure(Denied)
          else if r.resource.instanceGeneration != core.ports[i].resource.instanceGeneration then Failure(Stale)
          else
            match AuthorizeAt(table, caller.holder, h, core.ports[i].resource, PortRightsFor(c).value.connect)
            case Failure(e) => Failure(CapabilityFault(e))
            case Success(_) => Success((h, i))
  }

  function Connect(core: Core, table: Slots, caller: Caller, handle: nat, rawClass: nat, id: u64)
    : (Core, Result<SlotId, PortError>)
  {
    match ConnectTarget(core, table, caller, handle, rawClass, id)
    case Failure(e) => (core, Failure(e))
    case Success((h, i)) =>
      var key := Key(core, i);
      var params := core.ports[i].params;
      var j := FindFirst(core.conns, ALLOCATABLE);
      if Count(core.conns, BoundToBy(key, caller.holder)) >= params.maxConnectionsPerHolder
         || Count(core.conns, BoundTo(key)) >= params.maxConnections
         || j == |core.conns| then (core, Failure(NoSpace))
      else
        var c := core.conns[j];
        var conn := Connection(c.generation + 1, Open, key, caller.holder, caller.generation, caller.domain, h,
                               0, 0, 0, 0, 0, c.events);
        (core.(conns := core.conns[j := conn]), Success(SlotId(j, conn.generation)))
  }

  /** Whether the connection and its port have room for one more request. */
  predicate HasRoom(core: Core, j: nat, i: nat, carries: bool)
    requires j < |core.conns| && i < |core.ports|
  {
    var c := core.conns[j];
    var p := core.ports[i];
    && c.outstanding < p.params.maxOutstanding
    && Count(p.requests, LIVE) < p.params.requestDepth
    && (carries ==> c.transfersInFlight < PORT_MAX_TRANSFERS_IN_FLIGHT_PER_CONNECTION
                    && p.transfersInFlight < PORT_MAX_TRANSFERS_IN_FLIGHT)
    && FindFirst(p.requests, FREE_ENTRY) < PORT_MAX_REQUEST_QUEUE_DEPTH
  }

  const FREE_ENTRY: Request -> bool := (r: Request) => !r.IsLive()

  /** The enqueue that ends an accepted SEND; it cannot fail. */
  function Enqueue(w: World, j: nat, i: nat, caller: Caller, rights: Rights, frame: Frame,
                   child: Option<TransferredCap>): World
    requires j < |w.core.conns| && i < |w.core.ports|
    requires FindFirst(w.core.ports[i].requests, FREE_ENTRY) < PORT_MAX_REQUEST_QUEUE_DEPTH
  {
    var p := w.core.ports[i];
    var c := w.core.conns[j];
    var entry := FindFirst(p.requests, FREE_ENTRY);
    var request := Request(p.nextSeq, ConnId(w.core, j), caller.holder, caller.domain, caller.generation, rights, child,
                           frame);
    var port := p.(nextSeq := NextSeq(p.nextSeq), requests := p.requests[entry := request],
                   transfersInFlight := p.transfersInFlight + Bit(child.Some?));
    var conn := c.(outstanding := c.outstanding + 1, transfersInFlight := c.transfersInFlight + Bit(child.Some?));
    w.(core := Core(w.core.ports[i := port], w.core.conns[j := conn]),
    effects := w.effects.Push(WakeServer(Key(w.core, i))).PushSignal(p.wake, false))
  }

  function SendAuthorized(w: World, j: nat, i: nat, caller: Caller, rights: Rights, frame: Frame,
                          transfer: Option<Transfer>)
    : (World, Result<(), PortError>)
    requires j < |w.core.conns| && i < |w.core.ports|
  {
    if !HasRoom(w.core, j, i, transfer.Some?) then (w, Failure(WouldBlock))
    else
      match transfer
      case None => (Enqueue(w, j, i, caller, rights, frame, None), Success(()))
      case Some(t) =>
        match ValidateTransfer(w.table, caller.holder, t)
        case Failure(e) => (w, Failure(e))
        case Success(v) =>
          var (table, child) := InstallChild(w.table, w.core.ports[i].server, v);
          match child
          case Failure(e) => (w.(table := table), Failure(e))
          case Success(cap) =>
            (Enqueue(w.(table := table), j, i, caller, rights, frame, Some(cap)), Success(()))
  }

  function Send(w: World, caller: Caller, connection: nat, frame: Frame, transfer: Option<Transfer>)
    : (World, Result<(), PortError>)
  {
    match ClientConnection(w.core, caller, connection)
    case Failure(e) => (w, Failure(e))
    case Success(j) =>
      match w.core.conns[j].state
      case ServerClosed(_) => (w, Failure(PeerClosed))
      case Free | ClosePending(_, _) | ServerGone => (w, Failure(Stale))
      case Open =>
        if !PortLive(w.core, w.core.conns[j].port) then (w, Failure(Stale))
        else
          var i := w.core.conns[j].port.slot;
          var (w1, auth) := ReauthorizeClient(w, j, i);
          match auth
          case Failure(e) => (w1, Failure(e))
          case Success(rights) => SendAuthorized(w1, j, i, caller, rights, frame, transfer)
  }

  function SetConn(w: World, j: nat, c: Connection): World
    requires j < |w.core.conns|
  {
    w.(core := w.core.(conns := w.core.conns[j := c]))
  }

  function RecvEvent(w: World, caller: Caller, connection: nat): (World, Result<EventRecord, PortError>) {
    match ClientConnection(w.core, caller, connection)
    case Failure(e) => (w, Failure(e))
    case Success(j) =>
      var c := w.core.conns[j];
      if (c.state.Open? || c.state.ServerClosed?) && c.eventLen != 0 then
        var e := c.events[c.eventHead];
        (SetConn(w, j, c.PopEvent()), Success(EventRecord(FrameEvent, 0, e.seq_, e.frame)))
      else
        match c.state
        case Open =>
          if !PortLive(w.core, c.port) then (w, Failure(Stale))
          else
            var (w1, auth) := ReauthorizeClient(w, j, c.port.slot);
            (w1, Failure(if auth.Failure? then auth.error else WouldBlock))
        case ServerClosed(reason) =>
          (ConsumeTerminal(w, j), Success(EventRecord(Disconnected, reason, c.closeSeq, ZERO_FRAME)))
        case ServerGone =>
          (ConsumeTerminal(w, j), Success(EventRecord(ServerGoneEvent, 0, c.closeSeq, ZERO_FRAME)))
        case Free | ClosePending(_, _) => (w, Failure(Stale))
  }

  function Close(w: World, caller: Caller, connection: nat, reason: u32): (World, Result<(), PortError>) {
    match ClientConnection(w.core, caller, connection)
    case Failure(e) => (w, Failure(e))
    case Success(j) =>
      match w.core.conns[j].state
      case Open => (BeginClose(w, j, ClientClosed, reason), Success(()))
      case ServerClosed(_) | ServerGone => (ConsumeTerminal(w, j), Success(()))
      case Free | ClosePending(_, _) => (w, Failure(Stale))
  }

  // ---- server operations ----

  function NoticeRecord(core: Core, j: nat): RecvRecord
    requires j < |core.conns| && core.conns[j].state.ClosePending?
  {
    var c := core.conns[j];
    RecvRecord(c.state.kind, c.state.pendingReason,
               Envelope(ConnId(core, j), c.client, c.clientDomain, c.clientGeneration, c.closeSeq, {}, None),
               ZERO_FRAME)
  }

  const CLOSE_SEQ: Connection -> nat := (c: Connection) => c.closeSeq
  const REQUEST_SEQ: Request -> nat := (r: Request) => r.seq_

  /** Takes entry `k` of port `i` out of the pool and off its connection's counters. */
  function Dequeue(core: Core, i: nat, k: nat): Core
    requires i < |core.ports| && k < PORT_MAX_REQUEST_QUEUE_DEPTH
  {
    var p := core.ports[i];
    var r := p.requests[k];
    var carried := Bit(r.transfer.Some?);
    var port := p.(requests := p.requests[k := EMPTY_REQUEST],
                   transfersInFlight := SatSub(p.transfersInFlight, carried));
    var j := r.connection.slot;
    var conns :=
      if j < |core.conns| && core.conns[j].generation == r.connection.generation then
        core.conns[j := core.conns[j].(outstanding := SatSub(core.conns[j].outstanding, 1),
                                       transfersInFlight := SatSub(core.conns[j].transfersInFlight, carried))]
      else core.conns;
    Core(core.ports[i := port], conns)
  }

  function Recv(w: World, caller: Caller, serve: nat): (World, Result<RecvRecord, PortError>) {
    match AuthorizeServe(w.core, w.table, caller, serve)
    case Failure(e) => (w, Failure(e))
    case Success(i) =>
      var key := Key(w.core, i);
      match FindLeast(w.core.conns, NoticeFor(key), CLOSE_SEQ)
      case Some(j) => (SetConn(w, j, w.core.conns[j].Freed()), Success(NoticeRecord(w.core, j)))
      case None =>
        match FindLeast(w.core.ports[i].requests, LIVE, REQUEST_SEQ)
        case None => (w, Failure(WouldBlock))
        case Some(k) =>
          var r := w.core.ports[i].requests[k];
          (w.(core := Dequeue(w.core, i, k), effects := w.effects.Push(WakeSendSpace(key))),
           Success(RecvRecord(RequestReceived, 0, r.ToEnvelope(), r.frame)))
  }

  /** An Open connection of port `i`, or why the server may not act on it. */
  function ServedOpen(core: Core, i: nat, raw: nat): (r: Result<nat, PortError>)
    requires i < |core.ports|
    ensures r.Success? ==>
              r.value < |core.conns| && core.conns[r.value].state.Open? && core.conns[r.value].port == Key(core, i)
  {
    match ServedConnection(core, i, raw)
    case Failure(e) => Failure(e)
    case Success(j) =>
      match core.conns[j].state
      case Open => Success(j)
      case ClosePending(_, _) => Failure(PeerClosed)
      case _ => Failure(Stale)
  }

  function Post(w: World, caller: Caller, serve: nat, connection: nat, frame: Frame): (World, Result<(), PortError>) {
    match AuthorizeServe(w.core, w.table, caller, serve)
    case Failure(e) => (w, Failure(e))
    case Success(i) =>
      match ServedOpen(w.core, i, connection)
      case Failure(e) => (w, Failure(e))
      case Success(j) =>
        if w.core.conns[j].eventLen >= w.core.ports[i].params.eventDepth then (w, Failure(WouldBlock))
        else
          var event := Event(w.core.ports[i].nextSeq, frame);
          var w1 := SetConn(w.(core := DrawSeq(w.core, i)), j, w.core.conns[j].PushEvent(event));
          (w1.(effects := w.effects.Push(WakeConnection(ConnId(w.core, j)))), Success(()))
  }

  function EndByServer(w: World, i: nat, j: nat, reason: u32): World
    requires i < |w.core.ports| && j < |w.core.conns|
  {
    var w1 := Purge(w, i, j);
    var conn := w1.core.conns[j].(closeSeq := w1.core.ports[i].nextSeq, state := ServerClosed(reason));
    var core := DrawSeq(w1.core, i);
    World(core.(conns := core.conns[j := conn]), w1.table,
          w1.effects.Push(WakeConnection(ConnId(core, j))).Push(WakeSendSpace(Key(core, i))))
  }

  function Disconnect(w: World, caller: Caller, serve: nat, connection: nat, reason: u32)
    : (World, Result<(), PortError>)
  {
    match AuthorizeServe(w.core, w.table, caller, serve)
    case Failure(e) => (w, Failure(e))
    case Success(i) =>
      match ServedOpen(w.core, i, connection)
      case Failure(e) => (w, Failure(e))
      case Success(j) => (EndByServer(w, i, j, reason), Success(()))
  }

  function BindWake(w: World, caller: Caller, serve: nat, target: WorkSet, requestBit: nat, noticeBit: nat)
    : (World, Result<(), PortError>)
  {
    if requestBit >= WORK_SET_BITS || noticeBit >= WORK_SET_BITS then (w, Failure(Invalid))
    else
      match AuthorizeServe(w.core, w.table, caller, serve)
      case Failure(e) => (w, Failure(e))
      case Success(i) =>
        var p := w.core.ports[i];
        var ports := w.core.ports[i := p.(wake := Some(WakeBinding(target, requestBit, noticeBit)))];
        var e1 := if Count(p.requests, LIVE) != 0 then w.effects.Push(SignalBit(target, requestBit)) else w.effects;
        var pending := FindFirst(w.core.conns, NoticeFor(Key(w.core, i))) < |w.core.conns|;
        var e2 := if pending then e1.Push(SignalBit(target, noticeBit)) else e1;
        (w.(core := w.core.(ports := ports), effects := e2), Success(()))
  }

  // ---- holder exit ----

  predicate ServedBy(p: Port, holder: u64, generation: u64) {
    p.live && p.server == holder && p.serverGeneration == generation
  }

  /** The world after the ports in slots below `k` that `holder` served are gone. */
  function ExitPorts(w: World, holder: u64, generation: u64, k: nat): (r: World)
    requires k <= |w.core.ports|
    ensures |r.core.ports| == |w.core.ports| && |r.core.conns| == |w.core.conns|
  {
    if k == 0 then w
    else
      var w1 := ExitPorts(w, holder, generation, k - 1);
      if ServedBy(w1.core.ports[k - 1], holder, generation) then Teardown(w1, k - 1) else w1
  }

  predicate ClientOf(c: Connection, holder: u64, generation: u64) {
    c.client == holder && c.clientGeneration == generation
    && (c.state.Open? || c.state.ServerClosed? || c.state.ServerGone?)
  }

  /** What the exit of its client does to connection `j`. */
  function ExitConn(w: World, holder: u64, generation: u64, j: nat): (r: World)
    requires j < |w.core.conns|
    ensures |r.core.ports| == |w.core.ports| && |r.core.conns| == |w.core.conns|
  {
    if !ClientOf(w.core.conns[j], holder, generation) then w
    else if w.core.conns[j].state.Open? then BeginClose(w, j, ClientExited, 0)
    else ConsumeTerminal(w, j)
  }

  function ExitConns(w: World, holder: u64, generation: u64, k: nat): (r: World)
    requires k <= |w.core.conns|
    ensures |r.core.ports| == |w.core.ports| && |r.core.conns| == |w.core.conns|
  {
    if k == 0 then w else ExitConn(ExitConns(w, holder, generation, k - 1), holder, generation, k - 1)
  }

  function OnHolderExit(w: World, holder: u64, generation: u64): World {
    ExitConns(ExitPorts(w, holder, generation, |w.core.ports|), holder, generation, |w.core.conns|)
  }
}
