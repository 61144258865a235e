/**
 Capability records and the pure checks over one record: rights masks, handles and their wire
 packing, provenance, and the ordered authorization checks.
 */
module Capability {
  import opened Wrappers

  const MAX_DELEGATION_DEPTH: nat := 4
  const MAX_SLOT_COUNT: nat := 0x1_0000

  /** Reserved holder of the kernel. */
  const KERNEL: u64 := 0

  datatype Right =
    | Read | Write | Inspect | Delegate | Revoke | Observe | Signal | Terminate | AuditRead
    | NetResolve | NetConnect | NetSend | NetReceive | NetRawDevice
    | GfxConnect | GfxShell | GfxOverlay | GfxServe | DisplayPresent | InputConsume

  type Rights = set<Right>

  datatype ResourceClass =
    | PersistentObject | ProcessControl | IpcEndpoint | BlockDevice | LifecycleControl | Audit
    | Network | SharedBuffer | Graphics | Display | Input

  datatype ResourceRef = ResourceRef(class_: ResourceClass, id: u64, instanceGeneration: u64)

  function ValidFor(c: ResourceClass): Rights {
    match c
    case PersistentObject => {Read, Write, Inspect, Delegate, Revoke}
    case ProcessControl => {Observe, Signal, Terminate, Delegate, Revoke}
    case IpcEndpoint => {Read, Write, Delegate, Revoke}
    case BlockDevice => {Read, Write, Inspect, Delegate, Revoke}
    case LifecycleControl => {Observe, Signal, Terminate, Delegate, Revoke}
    case Audit => {AuditRead, Delegate}
    case Network => {NetResolve, NetConnect, NetSend, NetReceive, NetRawDevice, Delegate, Revoke}
    case SharedBuffer => {Read, Write, Delegate, Revoke}
    case Graphics => {GfxConnect, GfxShell, GfxOverlay, GfxServe, Delegate, Revoke}
    case Display => {DisplayPresent, Inspect}
    case Input => {InputConsume, Inspect}
  }

  /** Rights that never appear on a delegated child. */
  function RootOnlyFor(c: ResourceClass): Rights {
    match c
    case Graphics => {GfxShell, GfxOverlay, GfxServe}
    case SharedBuffer => {Write, Delegate, Revoke}
    case _ => {}
  }

  predicate RightsValid(c: ResourceClass, rights: Rights) {
    rights != {} && rights <= ValidFor(c)
  }

  /** A slot and a generation: capability handles, connection ids and shared-buffer ids. */
  datatype SlotId = SlotId(slot: nat, generation: u32) {
    predicate WellFormed() { slot <= U16_MAX && generation != 0 }
  }

  const INVALID_ID := SlotId(0, 0)

  /** Wire packing: slot in bits 0..16, generation in bits 16..48. */
  function EncodeId(id: SlotId): nat {
    id.slot + id.generation * 0x1_0000
  }

  function DecodeId(raw: nat): Option<SlotId> {
    if raw >= 0x1_0000_0000_0000 || raw / 0x1_0000 == 0 then None
    else Some(SlotId(raw % 0x1_0000, raw / 0x1_0000))
  }

  /** Decoding succeeds exactly on the encodings of well-formed ids, and inverts encoding. */
  lemma IdRoundTrip(id: SlotId, raw: nat)
    ensures id.WellFormed() ==> DecodeId(EncodeId(id)) == Some(id)
    ensures DecodeId(raw).Some? ==> DecodeId(raw).value.WellFormed() && EncodeId(DecodeId(raw).value) == raw
    ensures DecodeId(raw).None? <==> forall i: SlotId | i.WellFormed() :: EncodeId(i) != raw
  {
  }

  datatype CapabilityError =
    | InvalidHandle | StaleHandle | RevokedCapability | UnauthorizedHolder | WrongResource
    | MissingRight | InvalidRights | RightsWidening | DelegationDepthExceeded
    | CapacityExhausted | NotDelegable

  datatype Provenance = Provenance(parent: Option<SlotId>, depth: nat, rootHolder: u64)

  datatype State = Empty | Live | Revoked | Retired

  datatype Record = Record(
    state: State, holder: u64, resource: ResourceRef, rights: Rights,
    provenance: Provenance, generation: u32)

  const EMPTY_RECORD := Record(Empty, KERNEL, ResourceRef(PersistentObject, 0, 0), {}, Root(KERNEL), 0)

  function Root(holder: u64): Provenance {
    Provenance(None, 0, holder)
  }

  function ChildOf(parent: SlotId, p: Provenance): Result<Provenance, CapabilityError> {
    if p.depth + 1 > MAX_DELEGATION_DEPTH then Failure(DelegationDepthExceeded)
    else Success(Provenance(Some(parent), p.depth + 1, p.rootHolder))
  }

  /** Ordered checks over one record; the first failure wins. */
  function Authorize(r: Record, h: SlotId, holder: u64, resource: ResourceRef, required: Rights)
    : Result<(), CapabilityError>
  {
    if r.state.Empty? then Failure(InvalidHandle)
    else if r.state.Retired? || r.generation != h.generation then Failure(StaleHandle)
    else if r.state.Revoked? then Failure(RevokedCapability)
    else if r.holder != holder then Failure(UnauthorizedHolder)
    else if r.resource != resource then Failure(WrongResource)
    else if !(required <= r.rights) then Failure(MissingRight)
    else Success(())
  }

  /** The effective rights of a child of `parent`, or why the delegation is refused. */
  function ValidateDelegation(parent: Record, h: SlotId, source: u64, requested: Rights)
    : Result<Rights, CapabilityError>
  {
    var auth := Authorize(parent, h, source, parent.resource, {Delegate});
    if auth.Failure? then Failure(auth.error)
    else if !(requested <= parent.rights) then Failure(RightsWidening)
    else if !(requested <= ValidFor(parent.resource.class_)) then Failure(InvalidRights)
    else if !(requested !! RootOnlyFor(parent.resource.class_)) then Failure(NotDelegable)
    else Success(requested)
  }
}
