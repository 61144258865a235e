/**
 Runs of the whole system: table operations of the kernel interleaved with port operations in any
 order. What holds after every run, and what no run can do.
 */
module Kernel {
  import opened Wrappers
  import opened Capability
  import opened SlotOps
  import opened Forest
  import opened Aging
  import opened Marking
  import opened PortTypes
  import opened PortSteps
  import opened PortInvariant
  import opened PortTransfers

  /** The operations of the table; the last two take records without their descendants. */
  datatype TableOp =
    | GrantRecord(holder: u64, resource: ResourceRef, rights: Rights, provenance: Provenance)
    | DelegateChild(source: u64, parent: SlotId, target: u64, childRights: Rights)
    | RevokeTree(handle: SlotId)
    | RevokeHolderOf(holder: u64)
    | RevokeResourceOf(class_: ResourceClass, id: u64)
    | DropResource(resource: ResourceRef)
    | DropResourceId(class_: ResourceClass, id: u64)
    | Reclaim
    | RevokeOne(handle: SlotId)
    | RevokeHeldBy(holder: u64)

  function ApplyTable(s: Slots, op: TableOp): Slots {
    match op
    case GrantRecord(holder, resource, rights, provenance) => Grant(s, holder, resource, rights, provenance).0
    case DelegateChild(source, parent, target, rights) => DelegateTo(s, source, parent, target, rights).0
    case RevokeTree(h) => RevokeSubtree(s, h).0
    case RevokeHolderOf(holder) => RevokeHolderTree(s, holder).0
    case RevokeResourceOf(c, id) => RevokeResourceTree(s, c, id).0
    case DropResource(resource) => DropAll(s, Naming(s, resource))
    case DropResourceId(c, id) => DropAll(s, NamingId(s, c, id))
    case Reclaim => ReleaseAll(s, RevokedSet(s))
    case RevokeOne(h) => RevokeHandle(s, h).0
    case RevokeHeldBy(holder) => DropAll(s, HeldBy(s, holder))
  }

  /** The operation leaves no Live record without its parent: a condition on its arguments. */
  predicate RespectsTree(s: Slots, op: TableOp) {
    match op
    case GrantRecord(holder, resource, rights, provenance) =>
      var r := Record(Live, holder, resource, rights, provenance, 0);
      NotInstalled(s, r) || MayJoin(s, r)
    case RevokeOne(h) => Childless(s, h)
    case RevokeHeldBy(holder) => NoneDelegatedBy(s, holder)
    case _ => true
  }

  function TableIssues(s: Slots, op: TableOp): Option<SlotId> {
    var r := match op
      case GrantRecord(holder, resource, rights, provenance) => Grant(s, holder, resource, rights, provenance).1
      case DelegateChild(source, parent, target, rights) => DelegateTo(s, source, parent, target, rights).1
      case _ => Failure(InvalidHandle);
    if r.Success? then Some(r.value) else None
  }

  lemma SubtreeKeepsForest(s: Slots, h: SlotId)
    requires WellFormed(s)
    ensures WellFormed(RevokeSubtree(s, h).0)
  {
    hide WellFormed, Subtree, RevokeAll, DownwardClosed, RevokeSubtree;
    SubtreeOnForest(s, h);
    SubtreeClosed(s, h.slot);
    RevokeAllKeepsForest(s, Subtree(s, h.slot));
  }

  /** Revoking a downward-closed set and releasing any slots afterwards keeps the forest. */
  lemma SweepKeepsForest(s: Slots, revoked: set<nat>, released: set<nat>)
    requires WellFormed(s) && DownwardClosed(s, revoked)
    ensures WellFormed(ReleaseAll(RevokeAll(s, revoked), released))
  {
    hide WellFormed, RevokeAll, ReleaseAll, DownwardClosed;
    RevokeAllKeepsForest(s, revoked);
    ReleaseAllKeepsForest(RevokeAll(s, revoked), released);
  }

  /** Every table operation keeps the forest, except a grant or a revoke that leaves a Live orphan. */
  lemma TableOpKeepsForestIff(s: Slots, op: TableOp)
    requires WellFormed(s)
    ensures WellFormed(ApplyTable(s, op)) <==> RespectsTree(s, op)
  {
    hide WellFormed, DownwardClosed, Childless, NoneDelegatedBy, MayJoin, NotInstalled, Install, RevokeSubtree,
         RevokeHolderTree, RevokeResourceTree, DropAll, RevokeHandle,
         ReleaseAll, RevokeAll, DelegateTo, ChainHeldBy, HeldBy, Naming, NamingId, LiveSet, RevokedSet;
    match op {
      case GrantRecord(holder, resource, rights, provenance) =>
        InstallKeepsForestIff(s, Record(Live, holder, resource, rights, provenance, 0));
      case DelegateChild(source, parent, target, rights) => DelegateKeepsForest(s, source, parent, target, rights);
      case RevokeTree(h) => SubtreeKeepsForest(s, h);
      case RevokeHolderOf(holder) =>
        HolderTreeOnForest(s, holder);
        ChainClosed(s, holder);
        SweepKeepsForest(s, ChainHeldBy(s, holder), HeldBy(s, holder));
      case RevokeResourceOf(c, id) =>
        ResourceTreeOnForest(s, c, id);
        NamingClosed(s, NamingId(s, c, id), ResourceRef(c, id, 0), c, id);
        SweepKeepsForest(s, NamingId(s, c, id), NamingId(s, c, id));
      case DropResource(resource) =>
        NamingClosed(s, Naming(s, resource) * LiveSet(s), resource, resource.class_, resource.id);
        DropKeepsForestIff(s, Naming(s, resource));
      case DropResourceId(c, id) =>
        NamingClosed(s, NamingId(s, c, id) * LiveSet(s), ResourceRef(c, id, 0), c, id);
        DropKeepsForestIff(s, NamingId(s, c, id));
      case Reclaim => ReleaseAllKeepsForest(s, RevokedSet(s));
      case RevokeOne(h) => RevokeHandleKeepsForestIff(s, h);
      case RevokeHeldBy(holder) => RevokeHolderKeepsForestIff(s, holder);
    }
  }

  lemma TableOpAges(s: Slots, op: TableOp)
    ensures Ages(s, ApplyTable(s, op))
    ensures TableIssues(s, op).Some? ==> Issues(s, ApplyTable(s, op), TableIssues(s, op).value)
  {
    hide RevokeSubtree, RevokeHolderTree, RevokeResourceTree;
    AgesReflexive(s);
    match op {
      case GrantRecord(holder, resource, rights, provenance) =>
        InstallAges(s, Record(Live, holder, resource, rights, provenance, 0));
      case DelegateChild(source, parent, target, rights) =>
        var c := ChildRecord(s, source, parent, target, rights);
        if c.Success? { InstallAges(s, c.value); }
      case RevokeTree(h) => TreesAge(s, h, KERNEL, PersistentObject, 0);
      case RevokeHolderOf(holder) => TreesAge(s, INVALID_ID, holder, PersistentObject, 0);
      case RevokeResourceOf(c, id) => TreesAge(s, INVALID_ID, KERNEL, c, id);
      case DropResource(resource) => RevokeAges(s, Naming(s, resource));
      case DropResourceId(c, id) => RevokeAges(s, NamingId(s, c, id));
      case Reclaim => RevokeAges(s, RevokedSet(s));
      case RevokeOne(h) => RevokeHandleAges(s, h);
      case RevokeHeldBy(holder) => RevokeAges(s, HeldBy(s, holder));
    }
  }

  // ---- system steps ----

  datatype System = System(core: Core, table: Slots)

  datatype SystemOp =
    | TableStep(op: TableOp)
    | RegisterPort(resource: ResourceRef, server: u64, serverGeneration: u64, params: PortParams)
    | UnregisterPort(key: PortKey)
    | ConnectTo(caller: Caller, handle: nat, rawClass: nat, id: u64)
    | SendRequest(caller: Caller, connection: nat, frame: Frame, transfer: Option<Transfer>)
    | ReceiveEvent(caller: Caller, connection: nat)
    | CloseConnection(caller: Caller, connection: nat, reason: u32)
    | ReceiveRequest(caller: Caller, serve: nat)
    | PostEvent(caller: Caller, serve: nat, connection: nat, frame: Frame)
    | DisconnectClient(caller: Caller, serve: nat, connection: nat, reason: u32)
    | BindWorkSet(caller: Caller, serve: nat, target: WorkSet, requestBit: nat, noticeBit: nat)
    | HolderExit(holder: u64, generation: u64)

  /** The world after one operation that starts with no effects owed. */
  function Step(sys: System, op: SystemOp): World {
    var w := World(sys.core, sys.table, NO_EFFECTS);
    match op
    case TableStep(t) => w.(table := ApplyTable(sys.table, t))
    case RegisterPort(resource, server, generation, params) =>
      w.(core := Register(sys.core, resource, server, generation, params).0)
    case UnregisterPort(key) => Unregister(w, key).0
    case ConnectTo(caller, handle, c, id) => w.(core := Connect(sys.core, sys.table, caller, handle, c, id).0)
    case SendRequest(caller, connection, frame, transfer) => Send(w, caller, connection, frame, transfer).0
    case ReceiveEvent(caller, connection) => RecvEvent(w, caller, connection).0
    case CloseConnection(caller, connection, reason) => Close(w, caller, connection, reason).0
    case ReceiveRequest(caller, serve) => Recv(w, caller, serve).0
    case PostEvent(caller, serve, connection, frame) => Post(w, caller, serve, connection, frame).0
    case DisconnectClient(caller, serve, connection, reason) => Disconnect(w, caller, serve, connection, reason).0
    case BindWorkSet(caller, serve, target, requestBit, noticeBit) =>
      BindWake(w, caller, serve, target, requestBit, noticeBit).0
    case HolderExit(holder, generation) => OnHolderExit(w, holder, generation)
  }

  function Run(sys: System, ops: seq<SystemOp>): System {
    if ops == [] then sys
    else
      var w := Step(Run(sys, ops[..|ops| - 1]), ops[|ops| - 1]);
      System(w.core, w.table)
  }

  function Boot(slots: nat, ports: nat, conns: nat): System {
    System(Core(seq(ports, _ => EmptyPort()), seq(conns, _ => EmptyConnection())), seq(slots, _ => EMPTY_RECORD))
  }

  /** Forest, engine invariant and their coupling. */
  predicate SystemOk(sys: System) {
    Coupled(sys) && WellFormed(sys.table)
  }

  /** The engine invariant, and queued transfers that carry distinct children of the table. */
  predicate Coupled(sys: System) {
    WorldOk(World(sys.core, sys.table, NO_EFFECTS))
  }

  /** The operation orphans no Live capability. */
  predicate Respects(sys: System, op: SystemOp) {
    op.TableStep? ==> RespectsTree(sys.table, op.op)
  }

  lemma BootOk(slots: nat, ports: nat, conns: nat)
    requires slots <= MAX_SLOT_COUNT
    ensures SystemOk(Boot(slots, ports, conns))
  {
    var core := Boot(slots, ports, conns).core;
    forall i | 0 <= i < |core.ports| ensures PortOk(core, i) && LimitsOk(core, i) {
      assert core.ports[i] == EmptyPort();
    }
    forall j | 0 <= j < |core.conns| ensures ConnOk(core, j) {
      assert core.conns[j] == EmptyConnection();
    }
  }

  // ---- the engine invariant ----

  lemma StepKeepsInv(sys: System, op: SystemOp)
    requires Inv(sys.core)
    ensures Inv(Step(sys, op).core)
  {
    hide Inv, ApplyTable, Teardown, Send, RecvEvent, Close, Recv, Post, Disconnect, BindWake, Register, Connect;
    var w := World(sys.core, sys.table, NO_EFFECTS);
    match op {
      case TableStep(_) =>
      case RegisterPort(resource, server, generation, params) =>
        RegisterKeepsInv(sys.core, resource, server, generation, params);
      case UnregisterPort(key) => if PortLive(sys.core, key) { TeardownKeepsInv(w, key.slot); }
      case ConnectTo(caller, handle, c, id) => ConnectKeepsInv(sys.core, sys.table, caller, handle, c, id);
      case SendRequest(caller, connection, frame, transfer) => SendKeepsInv(w, caller, connection, frame, transfer);
      case ReceiveEvent(caller, connection) => RecvEventKeepsInv(w, caller, connection);
      case CloseConnection(caller, connection, reason) => CloseKeepsInv(w, caller, connection, reason);
      case ReceiveRequest(caller, serve) => RecvKeepsInv(w, caller, serve);
      case PostEvent(caller, serve, connection, frame) => PostKeepsInv(w, caller, serve, connection, frame);
      case DisconnectClient(caller, serve, connection, reason) =>
        DisconnectKeepsInv(w, caller, serve, connection, reason);
      case BindWorkSet(caller, serve, target, requestBit, noticeBit) =>
        BindWakeKeepsInv(w, caller, serve, target, requestBit, noticeBit);
      case HolderExit(holder, generation) =>
        ExitPortsKeepInv(w, holder, generation, |w.core.ports|);
        ExitConnsKeepInv(ExitPorts(w, holder, generation, |w.core.ports|), holder, generation, |w.core.conns|);
    }
  }

  // ---- the table ----

  lemma UnchangedKeepsTable(w: World, after: World)
    requires WorldOk(w) && after.table == w.table && NoNewTransfers(w.core, after.core)
    ensures TableKept(w, after)
  {
    AgesReflexive(w.table);
    TransfersKept(w.core, after.core, w.table);
  }

  lemma {:induction false} ExitPortsKeepTable(w: World, holder: u64, generation: u64, k: nat)
    requires WorldOk(w) && k <= |w.core.ports|
    ensures TableKept(w, ExitPorts(w, holder, generation, k))
  {
    if k == 0 {
      UnchangedKeepsTable(w, w);
    } else {
      ExitPortsKeepTable(w, holder, generation, k - 1);
      var w1 := ExitPorts(w, holder, generation, k - 1);
      TeardownKeepsTable(w1, k - 1);
      if ServedBy(w1.core.ports[k - 1], holder, generation) {
        AgesTransitive(w.table, w1.table, Teardown(w1, k - 1).table);
      }
    }
  }

  lemma {:induction false} ExitConnsKeepTable(w: World, holder: u64, generation: u64, k: nat)
    requires TransfersOk(w.core, w.table) && k <= |w.core.conns|
    ensures TableKept(w, ExitConns(w, holder, generation, k))
  {
    if k == 0 {
      AgesReflexive(w.table);
    } else {
      ExitConnsKeepTable(w, holder, generation, k - 1);
      var w1 := ExitConns(w, holder, generation, k - 1);
      ExitConnKeepsTable(w1, holder, generation, k - 1);
      AgesTransitive(w.table, w1.table, ExitConn(w1, holder, generation, k - 1).table);
    }
  }

  lemma ExitConnKeepsTable(w: World, holder: u64, generation: u64, j: nat)
    requires TransfersOk(w.core, w.table) && j < |w.core.conns|
    ensures TableKept(w, ExitConn(w, holder, generation, j))
  {
    AgesReflexive(w.table);
    if w.core.conns[j].state.Open? {
      BeginCloseKeepsTable(w, j, ClientExited, 0);
    } else {
      TransfersKept(w.core, ExitConn(w, holder, generation, j).core, w.table);
    }
  }

  lemma StepKeepsTable(sys: System, op: SystemOp)
    requires Coupled(sys) && !op.TableStep?
    ensures TableKept(World(sys.core, sys.table, NO_EFFECTS), Step(sys, op))
  {
    hide ApplyTable, Teardown, Send, RecvEvent, Close, Recv, Post, Disconnect, BindWake, OnHolderExit;
    var w := World(sys.core, sys.table, NO_EFFECTS);
    match op {
      case UnregisterPort(key) =>
        if PortLive(sys.core, key) { TeardownKeepsTable(w, key.slot); } else { UnchangedKeepsTable(w, w); }
      case SendRequest(caller, connection, frame, transfer) => SendKeepsTable(w, caller, connection, frame, transfer);
      case ReceiveEvent(caller, connection) => RecvEventKeepsTable(w, caller, connection);
      case CloseConnection(caller, connection, reason) => CloseKeepsTable(w, caller, connection, reason);
      case DisconnectClient(caller, serve, connection, reason) =>
        DisconnectKeepsTable(w, caller, serve, connection, reason);
      case HolderExit(holder, generation) => ExitKeepsTable(w, holder, generation);
      case ReceiveRequest(caller, serve) => RecvKeepsTable(w, caller, serve);
      case PostEvent(caller, serve, connection, frame) => PostKeepsTable(w, caller, serve, connection, frame);
      case BindWorkSet(caller, serve, target, requestBit, noticeBit) =>
        BindWakeKeepsTable(w, caller, serve, target, requestBit, noticeBit);
      case RegisterPort(resource, server, generation, params) =>
        var core := Register(sys.core, resource, server, generation, params).0;
        UnchangedKeepsTable(w, World(core, sys.table, NO_EFFECTS));
      case ConnectTo(caller, handle, c, id) =>
        var core := Connect(sys.core, sys.table, caller, handle, c, id).0;
        UnchangedKeepsTable(w, World(core, sys.table, NO_EFFECTS));
    }
  }

  lemma ExitKeepsTable(w: World, holder: u64, generation: u64)
    requires WorldOk(w)
    ensures TableKept(w, OnHolderExit(w, holder, generation))
  {
    var w1 := ExitPorts(w, holder, generation, |w.core.ports|);
    ExitPortsKeepTable(w, holder, generation, |w.core.ports|);
    ExitConnsKeepTable(w1, holder, generation, |w.core.conns|);
    AgesTransitive(w.table, w1.table, ExitConns(w1, holder, generation, |w.core.conns|).table);
  }

  lemma RecvKeepsTable(w: World, caller: Caller, serve: nat)
    requires WorldOk(w)
    ensures TableKept(w, Recv(w, caller, serve).0)
  {
    UnchangedKeepsTable(w, Recv(w, caller, serve).0);
  }

  lemma PostKeepsTable(w: World, caller: Caller, serve: nat, connection: nat, frame: Frame)
    requires WorldOk(w)
    ensures TableKept(w, Post(w, caller, serve, connection, frame).0)
  {
    UnchangedKeepsTable(w, Post(w, caller, serve, connection, frame).0);
  }

  lemma BindWakeKeepsTable(w: World, caller: Caller, serve: nat, target: WorkSet, requestBit: nat, noticeBit: nat)
    requires WorldOk(w)
    ensures TableKept(w, BindWake(w, caller, serve, target, requestBit, noticeBit).0)
  {
    UnchangedKeepsTable(w, BindWake(w, caller, serve, target, requestBit, noticeBit).0);
  }

  lemma RecvEventKeepsTable(w: World, caller: Caller, connection: nat)
    requires WorldOk(w)
    ensures TableKept(w, RecvEvent(w, caller, connection).0)
  {
    var found := ClientConnection(w.core, caller, connection);
    if found.Success? {
      BeginCloseKeepsTable(w, found.value, ClientRevoked, 0);
      if RecvEvent(w, caller, connection).0 != BeginClose(w, found.value, ClientRevoked, 0) {
        UnchangedKeepsTable(w, RecvEvent(w, caller, connection).0);
      }
    } else {
      UnchangedKeepsTable(w, w);
    }
  }

  lemma CloseKeepsTable(w: World, caller: Caller, connection: nat, reason: u32)
    requires WorldOk(w)
    ensures TableKept(w, Close(w, caller, connection, reason).0)
  {
    var found := ClientConnection(w.core, caller, connection);
    if found.Success? && w.core.conns[found.value].state.Open? {
      BeginCloseKeepsTable(w, found.value, ClientClosed, reason);
    } else {
      UnchangedKeepsTable(w, Close(w, caller, connection, reason).0);
    }
  }

  lemma DisconnectKeepsTable(w: World, caller: Caller, serve: nat, connection: nat, reason: u32)
    requires WorldOk(w)
    ensures TableKept(w, Disconnect(w, caller, serve, connection, reason).0)
  {
    var served := AuthorizeServe(w.core, w.table, caller, serve);
    if served.Success? && ServedOpen(w.core, served.value, connection).Success? {
      EndByServerKeepsTable(w, served.value, ServedOpen(w.core, served.value, connection).value, reason);
    } else {
      UnchangedKeepsTable(w, w);
    }
  }

  // ---- every run ----

  /** Every operation keeps the engine invariant, ages the table and keeps queued children distinct. */
  lemma StepKeepsCoupled(sys: System, op: SystemOp)
    requires Coupled(sys)
    ensures Coupled(System(Step(sys, op).core, Step(sys, op).table))
    ensures Ages(sys.table, Step(sys, op).table)
  {
    hide Inv, TransfersOk, Ages;
    StepKeepsInv(sys, op);
    if op.TableStep? {
      TableOpAges(sys.table, op.op);
      TransfersOkAges(sys.core, sys.table, ApplyTable(sys.table, op.op));
    } else {
      StepKeepsTable(sys, op);
    }
    AgesSameSize(sys.table, Step(sys, op).table);
  }

  lemma AgesSameSize(s: Slots, t: Slots)
    requires Ages(s, t)
    ensures |s| == |t|
  {
  }

  /** One operation keeps everything exactly when it orphans no Live capability. */
  lemma StepKeepsSystemIff(sys: System, op: SystemOp)
    requires SystemOk(sys)
    ensures SystemOk(System(Step(sys, op).core, Step(sys, op).table)) <==> Respects(sys, op)
  {
    hide Coupled, WellFormed, RespectsTree;
    StepKeepsCoupled(sys, op);
    if op.TableStep? {
      TableOpKeepsForestIff(sys.table, op.op);
    } else {
      StepKeepsTable(sys, op);
    }
  }

  /** Every reachable engine is consistent and every queued child is its own, whatever was revoked. */
  lemma {:induction false} EveryRunIsCoupled(sys: System, ops: seq<SystemOp>)
    requires Coupled(sys)
    ensures Coupled(Run(sys, ops))
  {
    hide Step, Coupled;
    if ops != [] {
      EveryRunIsCoupled(sys, ops[..|ops| - 1]);
      StepKeepsCoupled(Run(sys, ops[..|ops| - 1]), ops[|ops| - 1]);
    }
  }

  /** No operation of the run orphans a Live capability. */
  predicate Respectful(sys: System, ops: seq<SystemOp>) {
    forall k :: 0 <= k < |ops| ==> Respects(Run(sys, ops[..k]), ops[k])
  }

  predicate SafeThroughout(sys: System, ops: seq<SystemOp>) {
    forall k :: 0 <= k <= |ops| ==> SystemOk(Run(sys, ops[..k]))
  }

  /** A run keeps the forest and the engine consistent throughout exactly when none of its operations orphans. */
  lemma {:induction false} EveryRunIsSafeIff(sys: System, ops: seq<SystemOp>)
    requires SystemOk(sys)
    ensures SafeThroughout(sys, ops) <==> Respectful(sys, ops)
  {
    hide Step, SystemOk, Respects, SafeThroughout, Respectful, Run;
    if ops == [] {
      ThroughoutNothing(sys);
    } else {
      var before := ops[..|ops| - 1];
      EveryRunIsSafeIff(sys, before);
      ThroughoutStep(sys, ops);
      if SafeThroughout(sys, before) {
        LastIsSafe(sys, before);
        StepKeepsSystemIff(Run(sys, before), ops[|ops| - 1]);
        LastStep(sys, ops);
      }
    }
  }

  lemma ThroughoutNothing(sys: System)
    ensures SafeThroughout(sys, []) <==> SystemOk(sys)
    ensures Respectful(sys, [])
  {
    hide Step, SystemOk, Respects;
    var none: seq<SystemOp> := [];
    assert none[..0] == [];
  }

  lemma LastStep(sys: System, ops: seq<SystemOp>)
    requires ops != []
    ensures var w := Step(Run(sys, ops[..|ops| - 1]), ops[|ops| - 1]);
            Run(sys, ops) == System(w.core, w.table)
  {
    hide Step;
  }

  lemma LastIsSafe(sys: System, ops: seq<SystemOp>)
    requires SafeThroughout(sys, ops)
    ensures SystemOk(Run(sys, ops))
  {
    hide Run, SystemOk;
    assert ops[..|ops|] == ops;
  }

  lemma ThroughoutStep(sys: System, ops: seq<SystemOp>)
    requires ops != []
    ensures var before := ops[..|ops| - 1];
            && (SafeThroughout(sys, ops) <==> SafeThroughout(sys, before) && SystemOk(Run(sys, ops)))
            && (Respectful(sys, ops) <==> Respectful(sys, before) && Respects(Run(sys, before), ops[|ops| - 1]))
  {
    hide Run, SystemOk, Respects;
    var n := |ops| - 1;
    var before := ops[..n];
    assert ops[..|ops|] == ops;
    forall k | 0 <= k <= n ensures before[..k] == ops[..k] { }
    if SafeThroughout(sys, ops) {
      forall k | 0 <= k <= n ensures SystemOk(Run(sys, before[..k])) { assert SystemOk(Run(sys, ops[..k])); }
    }
    if SafeThroughout(sys, before) && SystemOk(Run(sys, ops)) {
      forall k | 0 <= k <= |ops| ensures SystemOk(Run(sys, ops[..k])) {
        if k <= n { assert SystemOk(Run(sys, before[..k])); }
      }
    }
    if Respectful(sys, ops) {
      forall k | 0 <= k < n
        ensures Respects(Run(sys, before[..k]), before[k])
      {
        assert Respects(Run(sys, ops[..k]), ops[k]);
      }
    }
    if Respectful(sys, before) && Respects(Run(sys, before), ops[n]) {
      forall k | 0 <= k < |ops| ensures Respects(Run(sys, ops[..k]), ops[k]) {
        if k < n { assert Respects(Run(sys, before[..k]), before[k]); }
      }
    }
  }

  /** Every state a run reaches without orphaning a Live capability is safe. */
  lemma EveryRunIsSafe(sys: System, ops: seq<SystemOp>)
    requires SystemOk(sys) && Respectful(sys, ops)
    ensures SystemOk(Run(sys, ops))
  {
    EveryRunIsSafeIff(sys, ops);
    LastIsSafe(sys, ops);
  }
}
