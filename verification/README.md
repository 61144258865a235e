# Verified model of a capability microkernel's core services

This project models four components of a Rust operating system and proves what they keep, over
every input and every run. It is written in Dafny 4.11; `dafny verify dfyconfig.toml` checks it all.

**Capabilities and service ports.** The capability table is an array of records whose slots carry
generations, delegation depth and a parent handle. The port engine is the state machine behind the
port system call: a port registry, a connection pool, request pools, event rings, capability
transfer on SEND, and a bounded list of owed wakes. Every operation is a function on values
(`Slots.dfy`, `PortSteps.dfy`) with a class method that updates the arrays in place and is proved
equal to it (`CapabilityTable.dfy`, `Revocation.dfy`, `Effects.dfy`, `PortCore.dfy`). Runs
interleave all of them in any order (`Kernel.dfy`): the engine's structural invariant survives every
run (`Kernel.EveryRunIsCoupled`), and the delegation forest survives exactly the runs that orphan no
capability (`Kernel.EveryRunIsSafeIff`). Owed effects never overflow
(`KernelRuns.EffectsNeverOverflow`) and no handle or connection id is issued twice
(`KernelRuns.HandlesAreUnique`, `KernelRuns.ConnectionIdsAreUnique`). Every accepted request has exactly
one fate (`KernelHistory.ExactlyOneFate`), is delivered as it was sent
(`KernelHistory.DeliveryIsFaithfulAndOrdered`), and while it is queued carries the very capability its
SEND installed (`KernelTheorems.QueuedChildIsItsOwn`). What a client receives is a prefix of what its
server posted (`KernelEvents.ReceivedIsPrefixOfPosted`).

**Compositor surfaces.** Double-buffered commit and latch over rectangle sets that collapse to a
bounding box, opaque and input regions, the configure handshake, and the busy-buffer tracker shared
by all surfaces of a connection. What a client declared over a run is a history of its own
(`SurfaceHistory.dfy`); damage handed over at a latch covers it (`SurfaceTheorems.LatchCoversDamage`),
hit testing is exact (`SurfaceTheorems.HitTestIsExact`), and buffers are conserved
(`ConnectionRuns.BuffersAreConserved`, `ConnectionRuns.ReleasedIsIdle`).

**Loaders.** ELF load plans: a sort and a merge sweep count exactly the set of pages touched
(`PageDemand.TotalMappedPages`). The Linux entry stack: a reader that knows only memory and the
stack pointer recovers what was built (`StackBuilder.BuildInitialStack`).

**Codecs and raster.** The RFC 1071 checksum as arithmetic modulo 65535 and the UDP round trip
(RFC 768), DNS names with compression (sections 3.1 and 4.1.4 of RFC 1035), and the integer
Bresenham line, which colours exactly the nearest pixels (`Line.Canvas.DrawLine`).

## Where the code and its documentation differ

- The window handshake documents serial uniqueness for fewer than 2^32 mints
  (graphics/src/window.rs:105-108). Serials skip 0, so they repeat after 2^32 - 1:
  `Window.SerialsRepeatIff` gives the exact condition.
- `CapabilityTable::revoke` and `revoke_holder` take records without their descendants, and can leave a
  Live child without a Live parent: `Forest.RevokeCanOrphan` reaches such a table from an empty one.
  `Forest.RevokeHandleKeepsForestIff` and `Forest.RevokeHolderKeepsForestIff` say exactly when the forest
  survives, for every handle and every holder: when no Live record is a child of the handle, and when
  nothing the holder delegated to others is Live. `grant` takes any provenance, and keeps the forest
  exactly when it installs nothing or that fits (`Forest.InstallKeepsForestIff`); `Forest.GrantCanOrphan`
  is a grant that does neither.
- A holder's exit is promised to revoke every live capability it held (capability/src/revocation.rs:58-61).
  Marking a subtree resolves the parent of every Live record in the table, so it is refused exactly when
  some other Live record, whoever holds it, has lost its parent (`Marking.RevokeSubtreeRefusedIff`), and the
  sweep counts the refusal as nothing revoked: one such record of another holder, and the exit revokes
  nothing (`Marking.OrphanBlocksHolderExit`). `Marking.DroppedOwnerBlocksExit` reaches such a table from an
  empty one. `Marking.HolderExitClearsIff` says for every table exactly when nothing of the holder stays
  Live; `SweptTrees.ExitClearsIff` reads that off the records as they were, wherever depths count links:
  the holder has none Live, or no record is an orphan, or the only orphan is the holder's and each earlier
  record of the holder is below a record of the holder from there on. Revoking by resource behaves alike.
- Requests are promised first in, first out (port/src/engine.rs:569-570), but the sequence counter
  wraps from its last value to 1. Counting a port's draws from 0 at its registration, draw n gets number
  1 + n mod (2^64 - 1). `KernelTheorems.FirstSentIsFirstReceivedIff` shows, for any two requests queued at
  one port in any run, that the one sent first is received first iff its draw is smaller modulo
  2^64 - 1, or equal and in a lower pool entry. `PortTheorems.WrappedCounterOvertakes` is a state where it
  is not. Fates, fidelity and single delivery hold regardless of wrapping; the order of a port's
  deliveries is proved while that port has drawn no number twice.

## Model

| member | source | states |
|---|---|---|
| Capability.IdRoundTrip | capability/src/handle.rs:30-45 | Decoding inverts encoding on every well-formed handle, and rejects exactly the raw values that are no encoding |
| SlotOps.FirstUsable | capability/src/table.rs:255-269 | The picked slot is empty with a generation left, and every earlier slot is occupied or exhausted |
| SlotOps.InstallAddsLive | capability/src/table.rs:63-80 | A successful install adds exactly the new slot to the Live set; a failed one leaves the Live set alone |
| Forest.RevokeAllKeepsForest | capability/src/table.rs:165-182 | Revoking any downward-closed set of slots keeps every Live record attached to a Live parent with superset rights and depth one less |
| Forest.ReleaseAllKeepsForest | capability/src/table.rs:184-202 | Releasing any set of Revoked slots keeps the forest |
| Forest.InstallKeepsForestIff | capability/src/table.rs:63-80 | An install keeps the forest iff nothing is installed (invalid rights, or no usable slot) or the record is a root or an attenuated child of a Live record, even when slots are retired on the way |
| Forest.GrantCanOrphan | capability/src/table.rs:41-61 | A grant into an empty table that names a parent nobody holds succeeds and leaves a Live record without its parent |
| Forest.DelegateKeepsForest | capability/src/delegation.rs:16-38 | Delegation keeps the forest for every source, parent, target and rights, accepted or refused |
| Forest.ParentLives | capability/src/authorize.rs:61-84 | On a well-formed table the parent of a Live child is Live and names the same resource |
| Forest.SubtreeClosed | capability/src/revocation.rs:15-56 | A subtree is closed under Live children |
| Forest.ChainClosed | capability/src/revocation.rs:72-94 | The records with a given holder on their chain are closed under Live children |
| Forest.NamingClosed | capability/src/table.rs:218-245 | The records naming one resource are closed under Live children, so dropping them needs no tree walk |
| Forest.DropKeepsForestIff | capability/src/table.rs:204-245 | Dropping any set of records without their descendants keeps the forest iff no surviving Live record is a child of a dropped one |
| Forest.RevokeKeepsForestIff | capability/src/table.rs:165-182 | Revoking any set of records without their descendants keeps the forest iff no surviving Live record is a child of a revoked one |
| Forest.RevokeHandleKeepsForestIff | capability/src/table.rs:148-163 | For every handle, stale ones included, the single-record revoke keeps the forest iff no Live record is a child of that handle |
| Forest.RevokeHolderKeepsForestIff | capability/src/table.rs:204-216 | For every holder, dropping its records keeps the forest iff no Live record of another holder is a child of one of them |
| Forest.RevokeCanOrphan | capability/src/table.rs:148-216 | From an empty table: grant a root, delegate it, revoke the root by handle or by holder; the child is left without a Live parent |
| Forest.NoDelegateIsLeaf | capability/src/authorize.rs:61-84 | A record without the right to delegate has no Live children |
| Forest.SharedBufferChildIsLeaf | port/src/transfer.rs:100-147 | Every delegated shared buffer is read-only and a leaf, so a transfer child may be released without a walk |
| Forest.DescendsAfterRevoke | capability/src/revocation.rs:15-56 | Revoking a downward-closed set leaves the ancestry of every survivor as it was |
| CapabilityTheorems.SubtreeRevokedExactly | capability/src/revocation.rs:15-56 | Once the root resolves, revoking a subtree succeeds, revokes exactly the Live descendants, leaves every other slot unchanged, and returns the drop in live count |
| CapabilityTheorems.RevokeSubtreeIdempotent | capability/src/revocation.rs:15-56 | Revoking a subtree again changes nothing and returns zero |
| CapabilityTheorems.HolderTreeRevokedExactly | capability/src/revocation.rs:62-94 | A Live slot stays Live and unchanged iff neither it nor an ancestor was held by the holder; the count is the drop in live count; no record of the holder remains |
| CapabilityTheorems.ResourceTreeRevokedExactly | capability/src/revocation.rs:99-126 | Exactly the records of the class and id go, whatever their instance generation; every other slot is unchanged; the count is the drop in live count |
| CapabilityTheorems.AuthorityComesFromRoot | capability/src/provenance.rs:25-41 | Along any chain, at most five records long, rights only shrink from a Live root of the same resource, and no child holds a root-only right |
| Aging.NeverReissued | capability/src/table.rs:255-269 | Over any history of aging tables no handle is issued twice |
| Aging.ReleasedIsFinal | capability/src/table.rs:109-128 | Once an issued handle stops resolving it never resolves or authorizes again |
| Aging.ResolvesToSame | capability/src/table.rs:109-128 | While a handle resolves it names the capability it was issued for |
| Aging.InstallAges | capability/src/table.rs:63-80 | An install only moves generations forward, and a handle it returns is newer than anything its slot held |
| Aging.RevokeAges | capability/src/table.rs:165-202 | Revoking and releasing never reuse a generation or bring a record back |
| Aging.RevokeHandleAges | capability/src/table.rs:148-163 | The single-record revoke, outside the tree discipline, still never lets a handle come back |
| Table.CapabilityTable.constructor | capability/src/table.rs:26-31 | A new table has only empty records and a live count of zero |
| Table.CapabilityTable.PickEmptySlot | capability/src/table.rs:255-269 | The in-place search retires exhausted slots on its way and returns the first usable one |
| Table.CapabilityTable.InstallRecord | capability/src/table.rs:63-80 | The in-place install equals the value-level one; the live count stays the number of Live records |
| Table.CapabilityTable.GrantCapability | capability/src/table.rs:41-61 | A grant installs a record with the given holder, rights and provenance, or reports invalid rights or exhaustion |
| Table.CapabilityTable.RevokeAt | capability/src/table.rs:165-182 | Marks one Live slot Revoked and drops the live count by one; otherwise nothing changes |
| Table.CapabilityTable.ReleaseAt | capability/src/table.rs:184-202 | Empties or retires one Revoked slot; otherwise nothing changes |
| Table.CapabilityTable.RevokeOne | capability/src/table.rs:148-163 | Revokes the one record of a handle, without its descendants, with the source's answer for each stale, unused or invalid handle |
| Table.CapabilityTable.RevokeHolder | capability/src/table.rs:204-216 | Drops exactly the Live records of a holder and returns how many |
| Table.CapabilityTable.RevokeResource | capability/src/table.rs:218-230 | Drops exactly the Live records of a resource and returns how many |
| Table.CapabilityTable.RevokeResourceId | capability/src/table.rs:232-245 | Drops exactly the Live records of a class and id, for every instance generation |
| Marking.OnePass | capability/src/revocation.rs:24-47 | One marking pass adds the children of what is marked, so each pass reaches one more level of the tree, wherever depths count links |
| Marking.MarkedIsSubtree | capability/src/revocation.rs:15-56 | After depth-plus-one passes the marks are the whole transitive closure |
| Marking.MarksAreSubtree | capability/src/revocation.rs:19-47 | With depths in order and no orphan but possibly the root, the passes succeed and mark exactly the Live descendants of the root |
| Marking.RevokeSubtreeRefusedIff | capability/src/revocation.rs:19-47 | On any table, revoking a subtree whose root resolves is refused iff another Live record names a parent that does not resolve; the error is that of the first such parent, nothing changes; otherwise the root is no longer Live |
| Marking.SubtreeOnForest | capability/src/revocation.rs:15-56 | On a well-formed table exactly the subtree is revoked and its Live records are counted; a handle that does not resolve is refused with its error |
| Marking.SweepRefusesIff | capability/src/revocation.rs:78-86 | A sweep swallows a refusal iff there is an orphan other than its first matching record |
| Marking.SweepClearsIff | capability/src/revocation.rs:78-86 | On any table, a sweep leaves no matching record Live iff nothing matched, nothing is orphaned, or the only orphan matches and every earlier match falls with the trees swept from there on |
| Marking.HolderExitClearsIff | capability/src/revocation.rs:58-94 | On any table, after a holder exits none of its records is Live iff the table was clearable of them in that sense |
| Marking.ResourceTreeClearsIff | capability/src/revocation.rs:96-126 | The same for the records of a class and id |
| Marking.OrphanBlocksHolderExit | capability/src/revocation.rs:72-94 | With one orphan held by somebody else, an exit revokes nothing: every Live record stays as it was and the count is zero |
| Marking.OrphanBlocksResourceTree | capability/src/revocation.rs:99-126 | With one orphan of another resource, ending a resource revokes nothing |
| Marking.DroppedOwnerBlocksExit | capability/src/revocation.rs:58-94 | From an empty table: an owner delegates and is dropped; the capability of a third holder can then not be revoked as a tree and stays Live after that holder exits |
| Marking.HolderTreeOnForest | capability/src/revocation.rs:72-94 | On a well-formed table an exit revokes and counts exactly what has the holder on its chain, and releases the slots of the holder |
| Marking.HolderTreeVisits | capability/src/revocation.rs:69-94 | On a well-formed table the resources visited are exactly those of the records revoked |
| Marking.ResourceTreeOnForest | capability/src/revocation.rs:99-126 | On a well-formed table exactly the records of the class and id are revoked, counted and released |
| Marking.TreesAge | capability/src/revocation.rs:15-126 | Tree revocations age any table: generations never fall, and a record that keeps its generation keeps its identity |
| SweptTrees.SweepFells | capability/src/revocation.rs:78-86 | Wherever depths count links and nothing but the first record swept is orphaned, a sweep revokes exactly the Live subtrees of the records that matched before it, and counts them |
| SweptTrees.EarlierFallIff | capability/src/revocation.rs:78-86 | When the only orphan matches, the matches before it fall with the trees swept from there on iff each is in the subtree of a match from there on |
| SweptTrees.ExitClearsIff | capability/src/revocation.rs:58-126 | Wherever depths count links: when a holder exit, or the end of a resource, leaves no record of it Live, as a condition on the records and links before the call |
| SweptTrees.TakingKeepsDepths | capability/src/revocation.rs:15-137 | Every way of taking records away, even those that orphan, keeps depths counting links |
| Revocation.MarkPass | capability/src/revocation.rs:26-43 | One in-place pass computes the pass on values, error included; it loses no mark, marks every Live child of what was marked, and changes nothing when it adds nothing |
| Revocation.MarkSubtree | capability/src/revocation.rs:19-47 | The loop that stops early computes all passes of every table, error included; on a well-formed table exactly the Live descendants of the root |
| Revocation.RevokeMarked | capability/src/revocation.rs:49-55 | Revokes exactly the marked Live slots and counts them |
| Revocation.RevokeSubtreeOf | capability/src/revocation.rs:15-56 | On every table the array algorithm equals the subtree revocation on values, changes nothing when it fails, returns the drop in live count, and ages the table |
| Revocation.RevokeHolderTreeOf | capability/src/revocation.rs:72-94 | On every table the in-place sweep and release equal the exit on values, and the count is the drop in live count; on a well-formed one the visited resources are exactly those of the records revoked |
| Revocation.RevokeResourceTreeOf | capability/src/revocation.rs:99-126 | On every table the in-place sweep and release equal the end of a resource on values, and the count is the drop in live count |
| Revocation.ReleaseRevoked | capability/src/revocation.rs:129-137 | Releases exactly the Revoked slots and returns their number |
| Revocation.DelegateCapability | capability/src/delegation.rs:16-38 | The in-place delegation equals the value-level one: every check precedes the single change |
| Revocation.AuthorizeRevoke | capability/src/revocation.rs:143-169 | For a Live handle of a well-formed table, the bounded walk accepts exactly the holders found on the whole ancestor chain |
| PortTypes.PortParams.Validate | native-abi/src/port.rs:130-156 | Parameters pass iff every limit and both consistency rules hold; otherwise the first broken one is named |
| PortTypes.PushAppends | port/src/engine.rs:177-183 | Pushing onto an event ring that is not full appends to its contents |
| PortTypes.PopTakesOldest | port/src/engine.rs:185-200 | Popping returns the oldest event and leaves the others in order |
| PortInvariant.RegisterKeepsInv | port/src/engine.rs:278-311 | Registration keeps the whole structural invariant: queue membership, exact counters, every configured limit, and that only ServerGone outlives its port |
| PortInvariant.ConnectKeepsInv | port/src/engine.rs:361-419 | Connecting keeps the whole structural invariant: queue membership, exact counters, every configured limit, and that only ServerGone outlives its port |
| PortInvariant.SendKeepsInv | port/src/engine.rs:423-499 | SEND, with or without a transfer, accepted or refused keeps the whole structural invariant: queue membership, exact counters, every configured limit, and that only ServerGone outlives its port |
| PortInvariant.RecvEventKeepsInv | port/src/engine.rs:501-533 | Receiving an event keeps the whole structural invariant: queue membership, exact counters, every configured limit, and that only ServerGone outlives its port |
| PortInvariant.CloseKeepsInv | port/src/engine.rs:535-555 | A client closing keeps the whole structural invariant: queue membership, exact counters, every configured limit, and that only ServerGone outlives its port |
| PortInvariant.RecvKeepsInv | port/src/engine.rs:571-630 | A server receiving keeps the whole structural invariant: queue membership, exact counters, every configured limit, and that only ServerGone outlives its port |
| PortInvariant.PostKeepsInv | port/src/engine.rs:633-660 | Posting an event keeps the whole structural invariant: queue membership, exact counters, every configured limit, and that only ServerGone outlives its port |
| PortInvariant.DisconnectKeepsInv | port/src/engine.rs:662-690 | A server disconnecting a client keeps the whole structural invariant: queue membership, exact counters, every configured limit, and that only ServerGone outlives its port |
| PortInvariant.BindWakeKeepsInv | port/src/engine.rs:692-727 | Binding wakes keeps the whole structural invariant: queue membership, exact counters, every configured limit, and that only ServerGone outlives its port |
| PortInvariant.ExitPortsKeepInv | port/src/engine.rs:729-762 | Tearing down all ports of an exiting holder keeps the whole structural invariant: queue membership, exact counters, every configured limit, and that only ServerGone outlives its port |
| PortInvariant.ExitConnsKeepInv | port/src/engine.rs:729-762 | Ending all connections of an exiting holder keeps the whole structural invariant: queue membership, exact counters, every configured limit, and that only ServerGone outlives its port |
| PortInvariant.EnqueueKeepsInv | port/src/engine.rs:472-498 | Queueing a request keeps the whole structural invariant: queue membership, exact counters, every configured limit, and that only ServerGone outlives its port |
| PortInvariant.DequeueKeepsInv | port/src/engine.rs:594-630 | Taking the least request off the queue keeps the whole structural invariant: queue membership, exact counters, every configured limit, and that only ServerGone outlives its port |
| PortInvariant.PurgeKeepsInv | port/src/engine.rs:1073-1095 | Purging a connection's requests keeps the whole structural invariant: queue membership, exact counters, every configured limit, and that only ServerGone outlives its port |
| PortInvariant.BeginCloseKeepsInv | port/src/engine.rs:1044-1071 | Beginning to close a connection keeps the whole structural invariant: queue membership, exact counters, every configured limit, and that only ServerGone outlives its port |
| PortInvariant.TeardownKeepsInv | port/src/engine.rs:1097-1142 | Tearing down a port and all its connections keeps the whole structural invariant: queue membership, exact counters, every configured limit, and that only ServerGone outlives its port |
| PortTheorems.InvPassesCheck | port/src/engine.rs:854-914 | Every state satisfying the invariant passes the engine's own consistency check, which counts across all ports |
| PortTheorems.DrainIsReceived | port/src/engine.rs:594-630 | With no notice pending, each receive returns the head of the drain order and leaves its tail |
| PortTheorems.DrainIsByNumber | port/src/engine.rs:594-630 | Of any two queued requests the one with the smaller number is received first, ties going to the lower entry |
| PortTheorems.WrappedCounterOvertakes | port/src/engine.rs:243-247 | In any state the engine allows with the last number queued in entry 0 and the counter back at 1, the next accepted request overtakes it, and the state after it is allowed too |
| KernelTheorems.FirstSentIsFirstReceivedIff | port/src/engine.rs:243-247 | In every run, for any two requests queued at a port, sent on any connections with or without transfers, the first sent is received first iff its draw is smaller modulo the period, or equal and in a lower entry; always while no number was drawn twice |
| PortTransfers.InstallChildOutcome | port/src/transfer.rs:92-128 | The child install succeeds iff a slot is installable after reclaiming; a failure leaves only the reclaiming |
| PortTransfers.InstallChildIssues | port/src/transfer.rs:100-128 | A transfer installs under a fresh handle a read-only record held by the server, whose parent is the sender's handle and whose resource is the sender's buffer |
| PortTransfers.InstallChildKeepsForest | port/src/transfer.rs:100-128 | Installing that child keeps the forest, reclaiming included |
| PortTransfers.ReleaseChildAges | port/src/transfer.rs:132-147 | Releasing an undelivered child spends its handle, changes nothing if the handle no longer resolves, and touches no other slot |
| PortTransfers.ReleaseChildKeepsForest | port/src/transfer.rs:132-147 | Releasing an undelivered child without walking a subtree keeps the forest |
| PortTransfers.ReleaseChildrenTouchOnly | port/src/engine.rs:1073-1095 | A purge changes no slot but those holding the children of the purged requests |
| PortTransfers.AcceptedSend | port/src/engine.rs:423-499 | An accepted SEND installs its child, if it has one, queues one request that carries it, and does nothing else |
| PortTransfers.FailedSendChangesNothing | port/src/engine.rs:421-499 | A failed SEND leaves ports, connections and effects unchanged and at most reclaims Revoked slots, unless the client capability was gone, and then it closes the connection |
| PortTransfers.SendKeepsTable | port/src/engine.rs:423-499 | SEND keeps a well-formed forest and never lets two queued requests carry the same child |
| PortTransfers.TeardownKeepsTable | port/src/engine.rs:1097-1142 | Tearing down a port releases its undelivered children and keeps the forest |
| PortEffects.UniverseBound | port/src/effects.rs:19-28 | The wakes and signals any operation can owe number at most four for each port and one for each connection |
| PortEffects.BeginCloseEffects | port/src/engine.rs:1044-1071 | Closing a connection owes only effects of that universe, and revoked resources only for transfers in flight |
| PortEffects.TeardownEffects | port/src/engine.rs:1097-1142 | A whole teardown cascade stays within that universe |
| PortEffects.ExitPortsEffects | port/src/engine.rs:729-762 | A holder exit over all its ports stays within that universe |
| Kernel.BootOk | port/src/engine.rs:265-274 | The empty system is safe |
| Kernel.TableOpKeepsForestIff | capability/src/table.rs:41-245 | Each of the ten table operations keeps the forest iff it leaves no Live record without its parent, a condition on its arguments |
| Kernel.StepKeepsCoupled | port/src/engine.rs:278-762 | Every system operation keeps the engine invariant, ages the table, and keeps the children of queued requests distinct |
| Kernel.StepKeepsSystemIff | port/src/engine.rs:278-762 | Every system operation keeps forest and engine together iff it orphans no Live capability |
| Kernel.EveryRunIsCoupled | port/src/engine.rs:854-914 | Every run of table and port operations, in any order and with any revocations, keeps the engine invariant and no two queued requests carry the same child |
| Kernel.EveryRunIsSafeIff | port/src/engine.rs:854-914 | A run keeps the forest and the engine consistent throughout iff none of its operations orphans a Live capability |
| Kernel.EveryRunIsSafe | port/src/engine.rs:854-914 | Every state reached without orphaning a capability has a well-formed forest and a consistent engine |
| KernelRuns.StepEffectsBounded | port/src/effects.rs:56-83 | No single operation overflows either list of owed effects when the sizes fit |
| KernelRuns.EffectsNeverOverflow | port/src/engine.rs:265-274 | In every run, under the size condition the engine asserts when built, no operation loses an owed effect |
| KernelRuns.ConnectionIdsAreUnique | port/src/engine.rs:401-418 | No connection id is handed out twice in any run |
| KernelRuns.SendIssues | port/src/transfer.rs:100-128 | An accepted transfer issues the handle its queued request carries, for a read-only child of the sender's handle held by the port's server |
| KernelRuns.HandlesAreUnique | capability/src/table.rs:255-269 | No capability handle is handed out twice in any run, by table operations or transfers, whatever is revoked in any way, and a spent one never resolves again |
| KernelHistory.EveryRunKeepsHistory | port/src/engine.rs:423-631 | Over every run, queues, deliveries and purges account for exactly the requests sent, envelope and frame, and each counter shows how many numbers its port drew |
| KernelHistory.MessageIsItsStep | port/src/engine.rs:423-499 | Every message of a run is what the accepted SEND at its step submitted: connection, caller, frame, re-authorized rights and installed child |
| KernelHistory.TakenIsReceived | port/src/engine.rs:571-631 | What the history logs for a receive is what the server was handed |
| KernelHistory.BootStarts | port/src/engine.rs:265-274 | The empty system starts every such run |
| KernelHistory.ExactlyOneFate | port/src/engine.rs:423-499 | In every run each accepted request is queued, delivered or purged because its connection or port ended, and only one of these |
| KernelHistory.DeliveryIsFaithfulAndOrdered | port/src/engine.rs:571-631 | Every received request is one that was sent to that port, with its whole envelope, rights and transfer included, and its frame, and is received once; a port that has drawn no number twice delivers requests in sending order and notices in closing order |
| KernelHistory.PurgedIsFinal | port/src/engine.rs:1073-1140 | A purged request is never delivered later in the run |
| KernelHistory.NoticesComeFirst | port/src/engine.rs:580-598 | A close notice is received only while none has a smaller number, and a request only when no notice is pending |
| KernelTheorems.SentChildIsIssued | port/src/transfer.rs:100-128 | In every run the child a message carries has the handle its own SEND issued, for the record that SEND installed |
| KernelTheorems.SentChildrenDiffer | port/src/transfer.rs:100-147 | No two messages of a run carry the same child, whether queued, delivered or purged |
| KernelTheorems.QueuedChildIsItsOwn | port/src/transfer.rs:132-147 | In every run, while the handle of a queued request's child resolves, its slot holds the capability that request's SEND installed, so releasing it never touches a later occupant |
| KernelEvents.PostAppends | port/src/engine.rs:633-660 | An accepted post appends its event to its connection and touches no other |
| KernelEvents.ReceiveTakesOldest | port/src/engine.rs:501-533 | A received event was the oldest of its connection; no other connection changes |
| KernelEvents.ReceivedIsPrefixOfPosted | port/src/engine.rs:501-660 | In every run what a client received on a connection is a prefix of what was posted to it, and while it can be read its ring is exactly the rest |
| EffectsList.Effects.PushEffect | port/src/effects.rs:56-67 | Appends an effect not yet listed, or records the overflow |
| EffectsList.Effects.NoteRevokedResource | port/src/effects.rs:69-83 | Appends a revoked resource not yet listed, or records the overflow |
| PortEngine.PortCore.constructor | port/src/engine.rs:265-274 | A new engine has only empty ports and connections, and satisfies the invariant |
| PortEngine.PortCore.RegisterPort | port/src/engine.rs:278-311 | The in-place operation equals the value-level step for registration, keeping the engine valid |
| PortEngine.PortCore.UnregisterPort | port/src/engine.rs:313-329 | The in-place operation equals the value-level step for unregistration, keeping the engine valid |
| PortEngine.PortCore.ConnectClient | port/src/engine.rs:361-419 | The in-place operation equals the value-level step for connecting, keeping the engine valid |
| PortEngine.PortCore.SendRequest | port/src/engine.rs:423-499 | The in-place operation equals the value-level step for SEND with re-authorization, limits, transfer and queueing, keeping the engine valid |
| PortEngine.PortCore.ReceiveEvent | port/src/engine.rs:501-533 | The in-place operation equals the value-level step for receiving an event or a terminal record, keeping the engine valid |
| PortEngine.PortCore.CloseConnection | port/src/engine.rs:535-555 | The in-place operation equals the value-level step for closing, keeping the engine valid |
| PortEngine.PortCore.Receive | port/src/engine.rs:571-630 | The in-place operation equals the value-level step for receiving the oldest notice or the least request, keeping the engine valid |
| PortEngine.PortCore.PostEvent | port/src/engine.rs:633-660 | The in-place operation equals the value-level step for posting an event, keeping the engine valid |
| PortEngine.PortCore.DisconnectClient | port/src/engine.rs:662-690 | The in-place operation equals the value-level step for disconnecting a client, keeping the engine valid |
| PortEngine.PortCore.BindWorkSet | port/src/engine.rs:692-727 | The in-place operation equals the value-level step for binding wakes and signalling what is already pending, keeping the engine valid |
| PortEngine.PortCore.HolderExit | port/src/engine.rs:729-762 | The in-place operation equals the value-level step for the whole cascade of a holder exit, keeping the engine valid |
| PortEngine.PortCore.PurgeConnection | port/src/engine.rs:1073-1095 | The in-place operation equals the value-level step for purging, with its counter updates and child releases |
| PortEngine.PortCore.BeginClosing | port/src/engine.rs:1044-1071 | The in-place operation equals the value-level step for beginning to close |
| PortEngine.PortCore.TeardownPort | port/src/engine.rs:1097-1142 | The in-place operation equals the value-level step for tearing down a port |
| Geometry.ClipToExtentExact | graphics/src/geometry.rs:60-84 | Clipping client damage keeps exactly its pixels inside the extent |
| Geometry.IntersectExact | graphics/src/geometry.rs:113-134 | An intersection holds exactly the common pixels |
| Geometry.ClipExact | graphics/src/geometry.rs:160-178 | Clipping succeeds exactly on rectangles with representable far edges and keeps exactly the pixels inside |
| Geometry.UnionBoundsExact | graphics/src/geometry.rs:136-158 | The bounding box inside an extent exists, covers both rectangles and lies in every rectangle that does |
| Geometry.InsertRect | graphics/src/geometry.rs:223-243 | The loop over a full set computes the bounding box of all its rectangles and the new one, with the source's failures |
| Geometry.InsertCovers | graphics/src/geometry.rs:223-243 | Inside an extent insertion never fails, never loses a pixel, never leaves the extent, and is exact until the set is full |
| SurfaceHistory.DamageSetCovers | graphics/src/surface.rs:385-399 | Declared damage is always accepted and every declared pixel inside the extent stays covered, despite collapse |
| SurfaceHistory.ClipRegionExact | graphics/src/surface.rs:274-298 | Clipping a region request keeps exactly the pixels of its rectangles |
| SurfaceHistory.InsertClippedCovers | graphics/src/surface.rs:300-308 | Clipping a set to a size covers every pixel inside, and is exact while it fits |
| SurfaceHistory.ExtendOpaqueExact | graphics/src/surface.rs:412-425 | Appending to an opaque region lists every rectangle or degrades, exactly when there are more than eight |
| SurfaceTheorems.DamageKeeps | graphics/src/surface.rs:385-399 | A damage request fails iff it carries too many rectangles, and keeps pending damage covering everything declared |
| SurfaceTheorems.OpaqueKeeps | graphics/src/surface.rs:401-427 | The pending opaque region stays a function of the rectangles declared since the last replacement |
| SurfaceTheorems.InputKeeps | graphics/src/surface.rs:429-453 | The pending input region stays a function of the rectangles declared since the last replacement |
| SurfaceTheorems.CommitKeepsDamage | graphics/src/surface.rs:505-539 | A commit moves declared damage into unlatched damage without losing a pixel, and covers the whole surface after a resize |
| SurfaceTheorems.CommitKeepsRegions | graphics/src/surface.rs:544-551 | A commit makes both regions mean exactly what was declared |
| SurfaceTheorems.EveryRunKeepsSurface | graphics/src/surface.rs:360-625 | All of this after every run of requests, commits and latches |
| SurfaceTheorems.LatchCoversDamage | graphics/src/surface.rs:575-597 | Over every run, latched damage lies inside the committed extent, covers every pixel damaged by commits since the last latch, and covers the whole extent after a mapping or size change |
| SurfaceTheorems.OpaqueIsDeclared | graphics/src/surface.rs:401-427 | Over every run a pixel is opaque iff it is inside, was declared since the last replacement, and at most eight rectangles were declared |
| SurfaceTheorems.HitTestIsExact | graphics/src/surface.rs:183-206 | Over every run the hit test accepts a point iff it is inside the surface and in the union of declared input rectangles |
| SurfaceTheorems.FramesFireOnce | graphics/src/surface.rs:557-625 | Over every run each armed frame callback has fired exactly once or is the one still pending |
| Tracker.CommitConserves | graphics/src/surface.rs:725-779 | A commit makes an attached buffer busy in one more place and releases exactly what it supersedes |
| Tracker.CompositedConserves | graphics/src/surface.rs:782-799 | Composition releases exactly the buffer it replaces |
| Tracker.RemoveConserves | graphics/src/surface.rs:802-817 | Destroying a surface releases exactly what it held |
| Tracker.CommitKeepsTracker | graphics/src/surface.rs:725-779 | A commit keeps each buffer busy in at most one place, one useful entry to a surface |
| Tracker.BusyIffPlaced | graphics/src/surface.rs:679-684 | A buffer is busy iff some entry holds it |
| Tracker.LimitUnreachable | graphics/src/surface.rs:708-722 | With buffers from a set no larger than the tracker, a consistent tracker never reports its limit |
| ConnectionRuns.CommitEntries | graphics/src/surface.rs:725-779 | A commit changes only its own surface's entry, to what the pending buffer asks |
| ConnectionRuns.StepConserves | graphics/src/surface.rs:464-597 | One step of a connection adds a place for the buffer it attaches and gives up one for each it reports released |
| ConnectionRuns.EveryRunKeepsConn | graphics/src/surface.rs:642-818 | After every run the tracker is consistent and agrees with what every surface has committed |
| ConnectionRuns.BuffersAreConserved | graphics/src/surface.rs:642-818 | Over every run of a connection, accepted attaches of a buffer equal its releases plus the at most one place where it is busy |
| ConnectionRuns.ReleasedIsIdle | graphics/src/surface.rs:464-597 | A buffer released by any step of any run is neither committed nor displayed by any surface |
| ConnectionRuns.LimitNeverExceeded | graphics/src/surface.rs:650-651 | In every run whose buffers come from a set no larger than the tracker, no commit hits its limit |
| SurfaceEngine.BufferTracker.Position | graphics/src/surface.rs:664-668 | Finds the first entry with a property |
| SurfaceEngine.BufferTracker.BufferIsBusy | graphics/src/surface.rs:679-684 | Scans for a busy buffer |
| SurfaceEngine.BufferTracker.CheckAttach | graphics/src/surface.rs:708-722 | Reports a busy buffer before a full tracker |
| SurfaceEngine.BufferTracker.CommitBuffer | graphics/src/surface.rs:725-779 | The in-place commit equals the value-level one and changes nothing on error |
| SurfaceEngine.BufferTracker.Promote | graphics/src/surface.rs:782-799 | The in-place composition equals the value-level one |
| SurfaceEngine.BufferTracker.Remove | graphics/src/surface.rs:802-817 | The in-place removal equals the value-level one |
| SurfaceEngine.SurfaceState.Attach | graphics/src/surface.rs:361-381 | Refuses a wrong scale, then a busy buffer, without touching pending state |
| SurfaceEngine.SurfaceState.AddDamage | graphics/src/surface.rs:385-399 | The loop with early return equals the fold over the request |
| SurfaceEngine.SurfaceState.SetOpaque | graphics/src/surface.rs:401-427 | The loop with early exit equals the fold that degrades |
| SurfaceEngine.SurfaceState.SetInput | graphics/src/surface.rs:429-453 | Whole-surface shortcut, limit check and append equal the value-level step |
| SurfaceEngine.SurfaceState.Apply | graphics/src/surface.rs:491-570 | The infallible half of a commit equals the value-level step |
| SurfaceEngine.SurfaceState.CommitPending | graphics/src/surface.rs:464-571 | All checks come first in the documented order and a refusal changes nothing; an accepted commit updates surface, tracker and window as on values |
| SurfaceEngine.SurfaceState.LatchFor | graphics/src/surface.rs:575-597 | The latch hands over clipped damage and promotes the buffer |
| SurfaceEngine.SurfaceState.Submitted | graphics/src/surface.rs:600-607 | Arms exactly the waiting state |
| SurfaceEngine.SurfaceState.Completed | graphics/src/surface.rs:610-625 | Fires exactly when the awaited present has completed |
| Window.SerialMinter.Mint | graphics/src/window.rs:40-47 | Serials increase by one and skip zero on wrap |
| Window.ConfigureState.Send | graphics/src/window.rs:134-147 | Refuses without consuming a serial, or appends the configure under the next serial |
| Window.ConfigureState.Shift | graphics/src/window.rs:166-174 | The shifting loop drops the oldest entries and clears the vacated places |
| Window.ConfigureState.Ack | graphics/src/window.rs:163-177 | Acknowledging consumes the serial and every older one; an unknown serial changes nothing |
| Window.MintFollows | graphics/src/window.rs:40-47 | The nth mint yields serial 1 + n modulo 2^32 - 1 |
| Window.SerialsRepeatIff | graphics/src/window.rs:105-108 | Two mints share a serial iff a multiple of 2^32 - 1 mints lies between them |
| Window.AcksAreOrdered | graphics/src/window.rs:103-108 | Over every run configures are acknowledged in sending order, each at most once; two outstanding ones share a serial iff a whole number of periods of mints lies between them, so never within one period |
| Window.CollisionTakesOlder | graphics/src/window.rs:163-177 | Of two outstanding configures with one serial an acknowledgement takes the older and leaves the newer outstanding |
| Bits.LowMask | elf/src/segment.rs:114-129 | Masking with a power of two less one is the remainder |
| Bits.AlignDownExact | elf/src/segment.rs:114-116 | The complement mask rounds down to a multiple |
| Bits.AlignUpExact | elf/src/segment.rs:118-129 | Rounding up gives the least multiple at or above, or nothing when that is not representable |
| LoadPlans.OverlapIff | elf/src/plan.rs:265-269 | The four comparisons decide whether two segments share a byte |
| LoadPlans.DetectOverlaps | elf/src/plan.rs:247-273 | Succeeds iff all ends are representable and no two segments share a byte |
| LoadPlans.EntryIsExecutable | elf/src/plan.rs:286-300 | Accepts iff some executable segment holds the entry point |
| LoadPlans.PhdrAddressIff | elf/src/plan.rs:275-284 | An address is reported iff a first segment holds the header table and the address fits, and it is the matching one |
| LoadPlans.ValidPhdrAddress | elf/src/plan.rs:275-284 | In a valid plan the table has an address iff some segment's file bytes hold its start |
| LoadPlans.CollectLoads | elf/src/plan.rs:121-177 | Fills the fixed buffer with exactly the load headers in order iff all are valid and within both budgets; otherwise reports what is wrong with the first at fault |
| LoadPlans.ParseLoadPlan | elf/src/plan.rs:90-199 | Accepts exactly the files that satisfy every rule, stated without order, and lists their load segments; a refusal names the first rule broken |
| PageDemand.PageSpanExact | elf/src/segment.rs:76-94 | A page span succeeds iff the rounded end is representable, and then holds exactly the touched pages |
| PageDemand.SpanTouches | elf/src/segment.rs:76-94 | A page is in a segment's span iff some byte of the segment lies on it |
| PageDemand.SpansCover | elf/src/plan.rs:41-55 | The collected spans together hold exactly the pages some segment touches |
| PageDemand.SortSpans | elf/src/plan.rs:56-62 | The insertion sort orders the spans by start and permutes them |
| PageDemand.CountPages | elf/src/plan.rs:63-80 | The merge sweep over sorted spans counts every page of their union once and cannot overflow |
| PageDemand.TotalMappedPages | elf/src/plan.rs:34-81 | The demand is the cardinality of the set of touched pages, or the first segment's failure |
| PageDemand.AcceptedSpansSucceed | elf/src/plan.rs:213-221 | For an accepted plan and any power-of-two page size every span is representable |
| PageDemand.PlanPages | elf/src/plan.rs:34-81 | For every accepted file and every power-of-two page size the count succeeds and is exact |
| StackImages.LayoutOf | linux-abi/src/stack.rs:215-296 | When the inputs fit, the pointer is 16-byte aligned, the vector lies below the strings, and fewer than 16 bytes separate them |
| StackImages.WordRoundTrip | linux-abi/src/stack.rs:328-338 | Eight little-endian bytes give back the word |
| StackReader.CPrefix | linux-abi/src/stack.rs:230-253 | What a reader sees of a string is all of it iff the string has no NUL |
| StackReader.CPrefixes | linux-abi/src/stack.rs:230-253 | A list of strings is seen whole iff none of them has a NUL |
| StackReader.ReadsVector | linux-abi/src/stack.rs:301-316 | Walking words up to each NULL recovers argc, both pointer lists and the auxiliary pairs |
| StackReader.EntryIsRecovered | linux-abi/src/stack.rs:145-326 | A walk from the stack pointer recovers argc, every string up to its first NUL, and every auxiliary pair |
| StackReader.TailIsThere | linux-abi/src/stack.rs:254-279 | Every extra blob lies at its reported place |
| StackBuilder.PlaceStrings | linux-abi/src/stack.rs:230-253 | Strings are copied with their NULs one after another and their addresses recorded |
| StackBuilder.PlaceBlobs | linux-abi/src/stack.rs:254-279 | Blobs follow, with a NUL exactly when asked |
| StackBuilder.WriteVector | linux-abi/src/stack.rs:301-316 | The cursor writes the whole vector in order and nothing else |
| StackBuilder.InputsFitIff | linux-abi/src/stack.rs:153-213 | The checks accept exactly the inputs that fit |
| StackBuilder.CheckRoom | linux-abi/src/stack.rs:153-213 | The checks before the buffer is touched pass iff everything fits but for the number of strings, with the source's error otherwise |
| StackBuilder.BuildInitialStack | linux-abi/src/stack.rs:145-326 | Succeeds iff the inputs fit, with the source's error otherwise; a refusal for lack of room leaves the buffer unchanged, one for too many strings leaves the string area zeroed, and one for too many tail blobs leaves it holding the argument and environment strings and zeros after them; below the pointer nothing changes, the padding is zero, and a reader recovers every input |
| Checksums.AddBytes | network/src/checksum.rs:16-28 | The word loop adds the big-endian words, an odd last byte padded, modulo 2^32 |
| Checksums.Finish | network/src/checksum.rs:31-37 | The carry loop ends and computes the complement of the sum modulo 65535 |
| Checksums.FoldEqualIff | network/src/checksum.rs:31-37 | Two sums fold alike iff they agree modulo 65535 and are both zero or neither |
| Checksums.WordSumAppend | network/src/checksum.rs:16-28 | Summing in parts is summing the whole when the first part has even length |
| Checksums.ComplementChecks | network/src/udp.rs:116-122 | The complement of any sum, with zero sent as all ones, makes the sum check |
| Udp.WrittenChecks | network/src/udp.rs:127-162 | Every written datagram passes verification, for every address, port and payload |
| Udp.ParseOfWrite | network/src/udp.rs:46-125 | Parsing a written datagram, with anything after it, returns its ports and data |
| Udp.OneWordErrorDetected | network/src/udp.rs:152-162 | Changing one aligned word of a datagram that checks is detected, unless it swaps 0 and 0xFFFF |
| Udp.VerifyDatagram | network/src/udp.rs:152-162 | Accepts any byte string iff its 32-bit sum with the pseudo-header folds to all ones; for every length that fits 16 bits, iff the datagram checks |
| Udp.ComputeChecksum | network/src/udp.rs:127-150 | For any byte string, the complement of the folded sum of the pseudo-header and the bytes without the checksum field |
| Udp.ParseDatagram | network/src/udp.rs:46-87 | Truncation, length, zero checksum and verification are reported in that order |
| Udp.Write | network/src/udp.rs:90-124 | Writes a datagram that parses back, or changes nothing |
| Dns.JoinUndoesSplit | network/src/dns.rs:148-172 | Joining the labels of a name with dots gives the name back |
| Dns.Read | network/src/dns.rs:231-300 | Decoding ends for every message, stays in bounds, never exceeds the buffer, and follows at most sixteen pointers |
| Dns.NameRoundTrip | network/src/dns.rs:182-300 | Decoding the encoding of any valid name gives the name without its trailing dot and the offset after it, whatever surrounds it |
| Dns.HopShift | network/src/dns.rs:267-273 | Having followed pointers before changes nothing but the count, as long as the limit allows |
| Dns.PointerDecodes | network/src/dns.rs:254-273 | A pointer decodes iff its target lies before the limit and decodes with a hop to spare, and then to the same name |
| Dns.PointerToName | network/src/dns.rs:254-273 | A pointer to an encoded name decodes to that name |
| Dns.ReadIsBehind | network/src/dns.rs:231-300 | Decoding behind a partial name puts that name in front and changes nothing else, as long as it fits |
| Dns.CompressedName | network/src/dns.rs:231-300 | Labels followed by a pointer decode iff the target lies before the limit, decodes with a hop to spare, and the joined name fits; then to the labels joined with the target's name |
| Dns.LongChainLoops | network/src/dns.rs:256-273 | A chain of more pointers than there are hops left is refused as a loop, wherever the pointers lead |
| Dns.PointerCycleLoops | network/src/dns.rs:256-273 | Pointers that lead round in a circle of any length are always refused as a loop |
| Dns.SelfPointerLoops | network/src/dns.rs:267-270 | A pointer to itself is always refused as a loop |
| Dns.ValidateName | network/src/dns.rs:140-180 | Accepts iff every label is well formed and the name is short enough |
| Dns.EncodeName | network/src/dns.rs:182-204 | Writes the encoding when it fits, and what it wrote decodes to the name; otherwise leaves exactly the labels before the first that does not fit |
| Dns.ReadNameAt | network/src/dns.rs:231-300 | The loop over offsets equals the recursive decoding, including which end offset it reports |
| Line.PenFollowsLine | raster/src/canvas.rs:186-206 | After k steps the pen has moved k pixels along the longer axis and is on the pixel nearest the ideal line there |
| Line.ArrivesExactly | raster/src/canvas.rs:192-206 | The far end is reached after exactly the longer span and never before |
| Line.NearestUnique | raster/src/canvas.rs:192-206 | There is exactly one nearest pixel at each place, and the pen is on it |
| Line.IntersectRectExact | raster/src/clip.rs:23-51 | The intersection holds exactly the common pixels for every 32-bit rectangle |
| Line.Canvas.Plot | raster/src/canvas.rs:209-225 | Colours one visible pixel and nothing else |
| Line.Canvas.DrawLine | raster/src/canvas.rs:169-207 | Colours exactly the visible nearest pixels of the line, or nothing when a span is out of range; skipping by bounding box loses no pixel |

## Left out

- Kernel code around the crates (boot, hardware, system-call entry, scheduling): environment of the model.
- Byte layouts of port records, envelopes and frames: envelopes are records, a frame is a name for its bytes.
- Port queries that only read (`find_handle`, counts, readiness): easy members.
- Deadlines and blocking of SEND and RECV: the engine only returns WouldBlock.
- Rights are sets of named rights, not bit masks; work sets are names.
- The table is modelled for at most 65536 slots, as handles carry 16-bit slots.
- Raw resource classes: only the class that has ports decodes; every other raw value is Invalid.
- SweptTrees.ExitClearsIff: stated where depths count links, because a grant may carry any depth and marking stops after a fixed number of passes; `Marking.HolderExitClearsIff` covers every table.
- KernelHistory.DeliveryIsFaithfulAndOrdered: the order of deliveries is not stated for a port that has drawn all of its 2^64 - 1 numbers and started again; `KernelTheorems.FirstSentIsFirstReceivedIff` gives the exact order there.
- Numbers a port draws while it is torn down are not counted: the port never answers again under its key.
- Widths of the commit and present counters, which only count up.
- Surface roles and layers, colour space, pixel formats, titles and resize edges: carried verbatim or single checks.
- Geometry.InsertRect: returns the new set instead of updating one in place, because surfaces copy rectangle sets by value.
- Connection runs leave out region requests and frame callbacks, which touch no buffer; the surface runs cover them.
- SurfaceTheorems.EveryRunKeepsSurface: a commit in a surface run is an accepted one; refused commits change nothing (`SurfaceEngine.SurfaceState.CommitPending`).
- Reading ELF header and program-header bytes: the load plan starts from decoded headers.
- Zero-fill ranges and file-backed ends of segments: single expressions.
- Udp.Write: omits the length check against 65535, which cannot fail below the payload limit.
- The DNS message header, resource records, cache and resolver, and the UDP socket table: glue over a device.
- Byte order and stride of pixels in the raster canvas: a pixel is one value.
- Filled rectangles, masks, text and patterns of the raster canvas.
