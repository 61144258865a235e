/** Ports, connections, requests and the effects an operation owes, as values. */
module PortTypes {
  import opened Wrappers
  import opened Capability

  const PORT_MAX_EVENT_QUEUE_DEPTH: nat := 64
  const PORT_MAX_REQUEST_QUEUE_DEPTH: nat := 64
  const PORT_MAX_CONNECTIONS: nat := 16
  const PORT_MAX_OUTSTANDING_PER_CONNECTION: nat := 16
  const PORT_MAX_TRANSFERS_IN_FLIGHT_PER_CONNECTION: nat := 1
  const PORT_MAX_TRANSFERS_IN_FLIGHT: nat := 4
  const WORK_SET_BITS: nat := 32
  const EFFECTS_CAPACITY: nat := 32
  const REVOKED_TRANSFERS_CAPACITY: nat := 16

  /** Frames are opaque: a frame is a name for its 64 bytes, 0 for all zeros. */
  type Frame = nat
  const ZERO_FRAME: Frame := 0

  /** Names a server's work set. */
  type WorkSet = nat

  datatype PortKey = PortKey(slot: nat, generation: u32)
  const NO_PORT := PortKey(0, 0)

  datatype Caller = Caller(holder: u64, generation: u64, domain: u64) {
    predicate IsProcess() { holder != KERNEL && generation != 0 }
  }

  datatype PortError = Invalid | Denied | Stale | NoSpace | WouldBlock | PeerClosed | Refused

  datatype RegistrationError = ClassHasNoPort | BadParams(which: PortParamError)
    | AlreadyRegistered | RegistryFull | ServerNotLive

  datatype PortParamError = EventDepth | RequestDepth | Connections | Outstanding | PerHolder | Inconsistent

  datatype RecvKind = RequestReceived | ClientClosed | ClientExited | ClientRevoked

  datatype EventKind = FrameEvent | Disconnected | ServerGoneEvent

  datatype TransferredCap = TransferredCap(handle: nat, bufferId: nat, byteLen: u64, rights: Rights,
                                           class_: ResourceClass)

  datatype Envelope = Envelope(
    connection: SlotId, pid: u64, domain: u64, instanceGeneration: u64, kernelSeq: u64,
    rights: Rights, transfer: Option<TransferredCap>)

  datatype RecvRecord = RecvRecord(kind: RecvKind, reason: u32, envelope: Envelope, frame: Frame)

  datatype EventRecord = EventRecord(kind: EventKind, reason: u32, kernelSeq: u64, frame: Frame)

  // ---- port parameters ----

  datatype PortParams = PortParams(
    eventDepth: nat, requestDepth: nat, maxConnections: nat, maxOutstanding: nat, maxConnectionsPerHolder: nat)
  {
    /** Checks one limit after the other; the first one broken is reported. */
    function Validate(): (r: Result<(), PortParamError>)
      ensures r.Success? <==> Valid()
    {
      if eventDepth == 0 || eventDepth > PORT_MAX_EVENT_QUEUE_DEPTH then Failure(EventDepth)
      else if requestDepth == 0 || requestDepth > PORT_MAX_REQUEST_QUEUE_DEPTH then Failure(RequestDepth)
      else if maxConnections == 0 || maxConnections > PORT_MAX_CONNECTIONS then Failure(Connections)
      else if maxOutstanding == 0 || maxOutstanding > PORT_MAX_OUTSTANDING_PER_CONNECTION then Failure(Outstanding)
      else if maxConnectionsPerHolder == 0 || maxConnectionsPerHolder > PORT_MAX_CONNECTIONS then Failure(PerHolder)
      else if maxOutstanding > requestDepth || maxConnectionsPerHolder > maxConnections then Failure(Inconsistent)
      else Success(())
    }

    predicate Valid() {
      && 0 < eventDepth <= PORT_MAX_EVENT_QUEUE_DEPTH
      && 0 < requestDepth <= PORT_MAX_REQUEST_QUEUE_DEPTH
      && 0 < maxConnections <= PORT_MAX_CONNECTIONS
      && 0 < maxOutstanding <= PORT_MAX_OUTSTANDING_PER_CONNECTION
      && 0 < maxConnectionsPerHolder <= PORT_MAX_CONNECTIONS
      && maxOutstanding <= requestDepth && maxConnectionsPerHolder <= maxConnections
    }
  }

  datatype PortRights = PortRights(connect: Rights, serve: Rights)

  function PortRightsFor(c: ResourceClass): Option<PortRights> {
    if c == Graphics then Some(PortRights({GfxConnect}, {GfxServe})) else None
  }

  /** Raw class 9 is Graphics; every other raw value names no class or one without ports. */
  function DecodeClass(raw: nat): Result<ResourceClass, PortError> {
    if raw == 9 then Success(Graphics) else Failure(Invalid)
  }

  // ---- requests ----

  /** One pool entry; `seq == 0` marks a free one. */
  datatype Request = Request(
    seq_: u64, connection: SlotId, pid: u64, domain: u64, generation: u64, rights: Rights,
    transfer: Option<TransferredCap>, frame: Frame)
  {
    predicate IsLive() { seq_ != 0 }

    function ToEnvelope(): Envelope {
      Envelope(connection, pid, domain, generation, seq_, rights, transfer)
    }
  }

  const EMPTY_REQUEST := Request(0, SlotId(0, 1), 0, 0, 0, {}, None, ZERO_FRAME)

  type RequestPool = s: seq<Request> | |s| == PORT_MAX_REQUEST_QUEUE_DEPTH
    witness seq(PORT_MAX_REQUEST_QUEUE_DEPTH, _ => EMPTY_REQUEST)

  function EmptyPool(): RequestPool {
    seq(PORT_MAX_REQUEST_QUEUE_DEPTH, _ => EMPTY_REQUEST)
  }

  const LIVE: Request -> bool := (r: Request) => r.IsLive()
  const CARRIES: Request -> bool := (r: Request) => r.IsLive() && r.transfer.Some?

  function OfConn(id: SlotId): Request -> bool {
    (r: Request) => r.IsLive() && r.connection == id
  }

  function CarriesFor(id: SlotId): Request -> bool {
    (r: Request) => r.IsLive() && r.connection == id && r.transfer.Some?
  }

  function Cleared(rs: RequestPool, p: Request -> bool): RequestPool {
    seq(|rs|, i requires 0 <= i < |rs| => if p(rs[i]) then EMPTY_REQUEST else rs[i])
  }

  // ---- connections ----

  datatype Event = Event(seq_: u64, frame: Frame)

  type EventRing = s: seq<Event> | |s| == PORT_MAX_EVENT_QUEUE_DEPTH
    witness seq(PORT_MAX_EVENT_QUEUE_DEPTH, _ => Event(0, ZERO_FRAME))

  type RingIndex = n: nat | n < PORT_MAX_EVENT_QUEUE_DEPTH

  datatype ConnState =
    | Free
    | Open
    | ClosePending(kind: RecvKind, pendingReason: u32)
    | ServerClosed(reason: u32)
    | ServerGone

  datatype Connection = Connection(
    generation: u32, state: ConnState, port: PortKey,
    client: u64, clientGeneration: u64, clientDomain: u64, clientCap: SlotId,
    outstanding: nat, transfersInFlight: nat, closeSeq: u64,
    eventHead: RingIndex, eventLen: nat, events: EventRing)
  {
    function ClearEvents(): Connection {
      this.(eventHead := 0, eventLen := 0)
    }

    function PushEvent(e: Event): Connection {
      this.(events := events[(eventHead + eventLen) % PORT_MAX_EVENT_QUEUE_DEPTH := e], eventLen := eventLen + 1)
    }

    function PopEvent(): Connection
      requires eventLen != 0
    {
      this.(eventHead := (eventHead + 1) % PORT_MAX_EVENT_QUEUE_DEPTH, eventLen := eventLen - 1)
    }

    function Freed(): Connection {
      this.(state := Free, port := NO_PORT, client := KERNEL, clientGeneration := 0, clientDomain := 0,
      clientCap := INVALID_ID, outstanding := 0, transfersInFlight := 0, closeSeq := 0,
      eventHead := 0, eventLen := 0)
    }

    /** The queued events, oldest first. */
    function Queue(): seq<Event> {
      seq(eventLen, i requires 0 <= i < eventLen => events[(eventHead + i) % PORT_MAX_EVENT_QUEUE_DEPTH])
    }
  }

  /** Pushing appends while the ring has room; clearing empties it. */
  lemma PushAppends(c: Connection, e: Event)
    requires c.eventLen < PORT_MAX_EVENT_QUEUE_DEPTH
    ensures c.PushEvent(e).Queue() == c.Queue() + [e]
    ensures c.ClearEvents().Queue() == []
  {
  }

  /** Popping removes the oldest event. */
  lemma PopTakesOldest(c: Connection)
    requires 0 < c.eventLen <= PORT_MAX_EVENT_QUEUE_DEPTH
    ensures c.Queue() == [c.events[c.eventHead]] + c.PopEvent().Queue()
  {
    var d := c.PopEvent();
    forall i | 0 <= i < c.eventLen ensures c.Queue()[i] == ([c.events[c.eventHead]] + d.Queue())[i] {
      RingStep(c.eventHead, i);
      RingStep(c.eventHead, 1);
      if i > 0 { RingStep(d.eventHead, i - 1); }
    }
  }

  lemma RingStep(head: RingIndex, i: nat)
    requires i <= PORT_MAX_EVENT_QUEUE_DEPTH
    ensures (head + i) % PORT_MAX_EVENT_QUEUE_DEPTH
         == if head + i < PORT_MAX_EVENT_QUEUE_DEPTH then head + i else head + i - PORT_MAX_EVENT_QUEUE_DEPTH
  {
  }

  function EmptyConnection(): Connection {
    Connection(0, Free, NO_PORT, KERNEL, 0, 0, INVALID_ID, 0, 0, 0, 0, 0,
               seq(PORT_MAX_EVENT_QUEUE_DEPTH, _ => Event(0, ZERO_FRAME)))
  }

  function BoundTo(key: PortKey): Connection -> bool {
    (c: Connection) => !c.state.Free? && c.port == key
  }

  function BoundToBy(key: PortKey, holder: u64): Connection -> bool {
    (c: Connection) => !c.state.Free? && c.port == key && c.client == holder
  }

  function NoticeFor(key: PortKey): Connection -> bool {
    (c: Connection) => c.port == key && c.state.ClosePending?
  }

  const ALLOCATABLE: Connection -> bool := (c: Connection) => c.state.Free? && c.generation != U32_MAX

  // ---- ports ----

  datatype WakeBinding = WakeBinding(target: WorkSet, requestBit: nat, noticeBit: nat)

  datatype Port = Port(
    generation: u32, live: bool, resource: ResourceRef, rights: PortRights,
    server: u64, serverGeneration: u64, params: PortParams, nextSeq: u64,
    transfersInFlight: nat, wake: Option<WakeBinding>, requests: RequestPool)

  function EmptyPort(): Port {
    Port(0, false, ResourceRef(Graphics, 0, 0), PortRights({}, {}), KERNEL, 0,
         PortParams(0, 0, 0, 0, 0), 0, 0, None, EmptyPool())
  }

  function Serving(c: ResourceClass, id: u64): Port -> bool {
    (p: Port) => p.live && p.resource.class_ == c && p.resource.id == id
  }

  function ServingExactly(resource: ResourceRef): Port -> bool {
    (p: Port) => p.live && p.resource == resource
  }

  const REGISTRABLE: Port -> bool := (p: Port) => !p.live && p.generation != U32_MAX

  /** Sequence numbers skip 0 when the counter wraps. */
  function NextSeq(s: u64): u64 {
    if s == U64_MAX then 1 else s + 1
  }

  // ---- effects ----

  datatype Effect =
    | WakeServer(key: PortKey)
    | WakeSendSpace(key: PortKey)
    | WakeConnection(id: SlotId)
    | SignalBit(target: WorkSet, bit: nat)

  /** Deduplicated wakes and signals, and the resources of the transfer children revoked. */
  datatype EffectList = EffectList(items: seq<Effect>, revoked: seq<ResourceRef>, overflowed: bool) {
    function Push(e: Effect): EffectList {
      if e in items then this
      else if |items| < EFFECTS_CAPACITY then this.(items := items + [e])
      else this.(overflowed := true)
    }

    function NoteRevoked(r: ResourceRef): EffectList {
      if r in revoked then this
      else if |revoked| < REVOKED_TRANSFERS_CAPACITY then this.(revoked := revoked + [r])
      else this.(overflowed := true)
    }

    /** Pushes a signal if the server bound a work set. */
    function PushSignal(wake: Option<WakeBinding>, notice: bool): EffectList {
      match wake
      case None => this
      case Some(w) => Push(SignalBit(w.target, if notice then w.noticeBit else w.requestBit))
    }
  }

  const NO_EFFECTS := EffectList([], [], false)
}
