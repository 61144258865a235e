/** More about every run: owed effects never overflow and no identity is issued twice. */
module KernelRuns {
  import opened Wrappers
  import opened Capability
  import opened SlotOps
  import opened Aging
  import opened PortTypes
  import opened PortSteps
  import opened PortInvariant
  import opened PortEffects
  import opened PortTransfers
  import opened Kernel

  // ---- effects ----

  lemma OkIsBounded(w: World, core: Core)
    requires |core.ports| == |w.core.ports| && |core.conns| == |w.core.conns|
    requires EffectsOk(w, Universe(core))
    ensures Bounded(w)
  {
    WithinIsBounded(w, core);
  }

  lemma CloseIsBounded(w: World, j: nat, kind: RecvKind, reason: u32)
    requires Inv(w.core) && SizesFit(w.core) && w.effects == NO_EFFECTS && j < |w.core.conns|
    ensures Bounded(BeginClose(w, j, kind, reason))
  {
    StartEffectsOk(w.core, w.table);
    BeginCloseEffects(w, j, kind, reason, Universe(w.core));
    OkIsBounded(BeginClose(w, j, kind, reason), w.core);
  }

  lemma ConsumeIsBounded(w: World, j: nat)
    requires Inv(w.core) && SizesFit(w.core) && w.effects == NO_EFFECTS && j < |w.core.conns|
    ensures Bounded(ConsumeTerminal(w, j))
  {
  }

  lemma SendEffects(w: World, caller: Caller, connection: nat, frame: Frame, transfer: Option<Transfer>)
    requires WorldOk(w) && SizesFit(w.core) && w.effects == NO_EFFECTS
    ensures Bounded(Send(w, caller, connection, frame, transfer).0)
  {
    var found := ClientConnection(w.core, caller, connection);
    if found.Success? && w.core.conns[found.value].state.Open? && PortLive(w.core, w.core.conns[found.value].port) {
      var j := found.value;
      var i := w.core.conns[j].port.slot;
      var auth := ReauthorizeClient(w, j, i).1;
      if auth.Success? {
        SendAuthorizedEffects(w, j, i, caller, auth.value, frame, transfer);
      } else {
        CloseIsBounded(w, j, ClientRevoked, 0);
      }
    }
  }

  lemma SendAuthorizedEffects(w: World, j: nat, i: nat, caller: Caller, rights: Rights, frame: Frame,
                              transfer: Option<Transfer>)
    requires WorldOk(w) && SizesFit(w.core) && w.effects == NO_EFFECTS && i < |w.core.ports| && j < |w.core.conns|
    ensures Bounded(SendAuthorized(w, j, i, caller, rights, frame, transfer).0)
  {
    StartEffectsOk(w.core, w.table);
    var u := Universe(w.core);
    CoversKey(u, w.core, i);
    PushWithin(w.effects, u, WakeServer(Key(w.core, i)));
    PushSignalWithin(w.effects.Push(WakeServer(Key(w.core, i))), u, w.core, i, false);
    var e := w.effects.Push(WakeServer(Key(w.core, i))).PushSignal(w.core.ports[i].wake, false);
    WithinIsBounded(World(w.core, w.table, e), w.core);
    WithinIsBounded(w, w.core);
  }

  lemma RecvEventEffects(w: World, caller: Caller, connection: nat)
    requires Inv(w.core) && SizesFit(w.core) && w.effects == NO_EFFECTS
    ensures Bounded(RecvEvent(w, caller, connection).0)
  {
    var found := ClientConnection(w.core, caller, connection);
    if found.Success? {
      if w.core.conns[found.value].state.Open? {
        CloseIsBounded(w, found.value, ClientRevoked, 0);
      } else {
        ConsumeIsBounded(w, found.value);
      }
    }
  }

  lemma CloseEffects(w: World, caller: Caller, connection: nat, reason: u32)
    requires Inv(w.core) && SizesFit(w.core) && w.effects == NO_EFFECTS
    ensures Bounded(Close(w, caller, connection, reason).0)
  {
    var found := ClientConnection(w.core, caller, connection);
    if found.Success? {
      if w.core.conns[found.value].state.Open? {
        CloseIsBounded(w, found.value, ClientClosed, reason);
      } else {
        ConsumeIsBounded(w, found.value);
      }
    }
  }

  lemma RecvEffects(w: World, caller: Caller, serve: nat)
    requires Inv(w.core) && SizesFit(w.core) && w.effects == NO_EFFECTS
    ensures Bounded(Recv(w, caller, serve).0)
  {
    var served := AuthorizeServe(w.core, w.table, caller, serve);
    if served.Success? {
      StartEffectsOk(w.core, w.table);
      var u := Universe(w.core);
      CoversKey(u, w.core, served.value);
      PushWithin(w.effects, u, WakeSendSpace(Key(w.core, served.value)));
      WithinIsBounded(World(w.core, w.table, w.effects.Push(WakeSendSpace(Key(w.core, served.value)))), w.core);
    }
  }

  lemma PostEffects(w: World, caller: Caller, serve: nat, connection: nat, frame: Frame)
    requires Inv(w.core) && SizesFit(w.core) && w.effects == NO_EFFECTS
    ensures Bounded(Post(w, caller, serve, connection, frame).0)
  {
    var served := AuthorizeServe(w.core, w.table, caller, serve);
    if served.Success? && ServedOpen(w.core, served.value, connection).Success? {
      var j := ServedOpen(w.core, served.value, connection).value;
      StartEffectsOk(w.core, w.table);
      PushWithin(w.effects, Universe(w.core), WakeConnection(ConnId(w.core, j)));
      WithinIsBounded(World(w.core, w.table, w.effects.Push(WakeConnection(ConnId(w.core, j)))), w.core);
    }
  }

  lemma DisconnectEffects(w: World, caller: Caller, serve: nat, connection: nat, reason: u32)
    requires Inv(w.core) && SizesFit(w.core) && w.effects == NO_EFFECTS
    ensures Bounded(Disconnect(w, caller, serve, connection, reason).0)
  {
    var served := AuthorizeServe(w.core, w.table, caller, serve);
    if served.Success? && ServedOpen(w.core, served.value, connection).Success? {
      var j := ServedOpen(w.core, served.value, connection).value;
      StartEffectsOk(w.core, w.table);
      EndByServerEffects(w, served.value, j, reason, Universe(w.core));
      OkIsBounded(EndByServer(w, served.value, j, reason), w.core);
    }
  }

  lemma BindWakeEffects(w: World, caller: Caller, serve: nat, target: WorkSet, requestBit: nat, noticeBit: nat)
    requires SizesFit(w.core) && w.effects == NO_EFFECTS
    ensures Bounded(BindWake(w, caller, serve, target, requestBit, noticeBit).0)
  {
    var after := BindWake(w, caller, serve, target, requestBit, noticeBit).0;
    UniverseBound(after.core);
    var u := Universe(after.core);
    var served := AuthorizeServe(w.core, w.table, caller, serve);
    if served.Success? && after != w {
      var i := served.value;
      var s := PortWakes(after.core, i);
      assert s[2] == SignalBit(target, requestBit) && s[3] == SignalBit(target, noticeBit);
      PushWithin(w.effects, u, SignalBit(target, requestBit));
      PushWithin(w.effects, u, SignalBit(target, noticeBit));
      PushWithin(w.effects.Push(SignalBit(target, requestBit)), u, SignalBit(target, noticeBit));
    }
    WithinIsBounded(after, after.core);
  }

  lemma ExitEffects(w: World, holder: u64, generation: u64)
    requires Inv(w.core) && SizesFit(w.core) && w.effects == NO_EFFECTS
    ensures Bounded(OnHolderExit(w, holder, generation))
  {
    StartEffectsOk(w.core, w.table);
    var u := Universe(w.core);
    ExitPortsEffects(w, holder, generation, |w.core.ports|, u);
    ExitConnsEffects(ExitPorts(w, holder, generation, |w.core.ports|), holder, generation, |w.core.conns|, u);
    OkIsBounded(OnHolderExit(w, holder, generation), w.core);
  }

  lemma UnregisterEffects(w: World, key: PortKey)
    requires Inv(w.core) && SizesFit(w.core) && w.effects == NO_EFFECTS
    ensures Bounded(Unregister(w, key).0)
  {
    if PortLive(w.core, key) {
      StartEffectsOk(w.core, w.table);
      TeardownEffects(w, key.slot, Universe(w.core));
      OkIsBounded(Teardown(w, key.slot), w.core);
    }
  }

  lemma QuietIsBounded(w: World, after: World)
    requires after.effects == NO_EFFECTS
    ensures Bounded(after)
  {
  }

  /** From a cleared list, no single operation overflows it. */
  lemma StepEffectsBounded(sys: System, op: SystemOp)
    requires Coupled(sys) && SizesFit(sys.core)
    ensures Bounded(Step(sys, op))
  {
    hide Bounded, ApplyTable, Teardown, Send, RecvEvent, Close, Recv, Post, Disconnect, BindWake, OnHolderExit;
    var w := World(sys.core, sys.table, NO_EFFECTS);
    match op {
      case TableStep(_) => QuietIsBounded(w, Step(sys, op));
      case RegisterPort(resource, server, generation, params) => QuietIsBounded(w, Step(sys, op));
      case ConnectTo(caller, handle, c, id) => QuietIsBounded(w, Step(sys, op));
      case UnregisterPort(key) => UnregisterEffects(w, key);
      case SendRequest(caller, connection, frame, transfer) => SendEffects(w, caller, connection, frame, transfer);
      case ReceiveEvent(caller, connection) => RecvEventEffects(w, caller, connection);
      case CloseConnection(caller, connection, reason) => CloseEffects(w, caller, connection, reason);
      case ReceiveRequest(caller, serve) => RecvEffects(w, caller, serve);
      case PostEvent(caller, serve, connection, frame) => PostEffects(w, caller, serve, connection, frame);
      case DisconnectClient(caller, serve, connection, reason) =>
        DisconnectEffects(w, caller, serve, connection, reason);
      case BindWorkSet(caller, serve, target, requestBit, noticeBit) =>
        BindWakeEffects(w, caller, serve, target, requestBit, noticeBit);
      case HolderExit(holder, generation) => ExitEffects(w, holder, generation);
    }
  }

  // ---- generations grow ----

  /** The same slots, with generations that only grew. */
  predicate Grown(a: Core, b: Core) {
    && |a.ports| == |b.ports| && |a.conns| == |b.conns|
    && (forall i :: 0 <= i < |a.ports| ==> a.ports[i].generation <= b.ports[i].generation)
    && (forall j :: 0 <= j < |a.conns| ==> a.conns[j].generation <= b.conns[j].generation)
  }

  lemma TeardownGrows(w: World, i: nat)
    requires i < |w.core.ports|
    ensures Grown(w.core, Teardown(w, i).core)
  {
    TeardownShape(w, i);
  }

  lemma {:induction false} ExitPortsGrow(w: World, holder: u64, generation: u64, k: nat)
    requires k <= |w.core.ports|
    ensures Grown(w.core, ExitPorts(w, holder, generation, k).core)
  {
    if k > 0 {
      ExitPortsGrow(w, holder, generation, k - 1);
      TeardownGrows(ExitPorts(w, holder, generation, k - 1), k - 1);
    }
  }

  lemma BeginCloseGrows(w: World, j: nat, kind: RecvKind, reason: u32)
    requires j < |w.core.conns|
    ensures Grown(w.core, BeginClose(w, j, kind, reason).core)
  {
  }

  lemma EnqueueGrows(w: World, j: nat, i: nat, caller: Caller, rights: Rights, frame: Frame,
                     child: Option<TransferredCap>)
    requires i < |w.core.ports| && j < |w.core.conns| && HasRoom(w.core, j, i, child.Some?)
    ensures Grown(w.core, Enqueue(w, j, i, caller, rights, frame, child).core)
  {
  }

  lemma ExitConnGrows(w: World, holder: u64, generation: u64, j: nat)
    requires j < |w.core.conns|
    ensures Grown(w.core, ExitConn(w, holder, generation, j).core)
  {
    hide BeginClose;
    BeginCloseGrows(w, j, ClientExited, 0);
  }

  lemma {:induction false} ExitConnsGrow(w: World, holder: u64, generation: u64, k: nat)
    requires k <= |w.core.conns|
    ensures Grown(w.core, ExitConns(w, holder, generation, k).core)
  {
    hide ExitConn;
    if k > 0 {
      ExitConnsGrow(w, holder, generation, k - 1);
      ExitConnGrows(ExitConns(w, holder, generation, k - 1), holder, generation, k - 1);
    }
  }

  lemma SendGrows(w: World, caller: Caller, connection: nat, frame: Frame, transfer: Option<Transfer>)
    ensures Grown(w.core, Send(w, caller, connection, frame, transfer).0.core)
  {
    hide BeginClose, Enqueue, InstallChild, ValidateTransfer, AuthorizeAt;
    var found := ClientConnection(w.core, caller, connection);
    if found.Success? {
      var j := found.value;
      BeginCloseGrows(w, j, ClientRevoked, 0);
      var i := w.core.conns[j].port.slot;
      if PortLive(w.core, w.core.conns[j].port) && HasRoom(w.core, j, i, transfer.Some?)
         && ReauthorizeClient(w, j, i).1.Success?
      {
        var auth := ReauthorizeClient(w, j, i).1;
        EnqueueGrows(w, j, i, caller, auth.value, frame, None);
        if transfer.Some? && ValidateTransfer(w.table, caller.holder, transfer.value).Success? {
          var (t, cap) := InstallChild(w.table, w.core.ports[i].server,
                                       ValidateTransfer(w.table, caller.holder, transfer.value).value);
          if cap.Success? { EnqueueGrows(w.(table := t), j, i, caller, auth.value, frame, Some(cap.value)); }
        }
      }
    }
  }

  lemma ClientOpsGrow(w: World, caller: Caller, connection: nat, reason: u32)
    ensures Grown(w.core, RecvEvent(w, caller, connection).0.core)
    ensures Grown(w.core, Close(w, caller, connection, reason).0.core)
  {
    hide BeginClose, AuthorizeAt;
    var found := ClientConnection(w.core, caller, connection);
    if found.Success? {
      BeginCloseGrows(w, found.value, ClientRevoked, 0);
      BeginCloseGrows(w, found.value, ClientClosed, reason);
    }
  }

  lemma RecvGrows(w: World, caller: Caller, serve: nat)
    ensures Grown(w.core, Recv(w, caller, serve).0.core)
  {
    hide AuthorizeServe;
  }

  lemma PostGrows(w: World, caller: Caller, serve: nat, connection: nat, frame: Frame)
    ensures Grown(w.core, Post(w, caller, serve, connection, frame).0.core)
  {
    hide AuthorizeServe;
  }

  lemma DisconnectGrows(w: World, caller: Caller, serve: nat, connection: nat, reason: u32)
    ensures Grown(w.core, Disconnect(w, caller, serve, connection, reason).0.core)
  {
    hide AuthorizeServe;
  }

  lemma BindWakeGrows(w: World, caller: Caller, serve: nat, target: WorkSet, requestBit: nat, noticeBit: nat)
    ensures Grown(w.core, BindWake(w, caller, serve, target, requestBit, noticeBit).0.core)
  {
  }

  lemma StepGrows(sys: System, op: SystemOp)
    ensures Grown(sys.core, Step(sys, op).core)
  {
    hide ApplyTable, Teardown, Send, RecvEvent, Close, Recv, Post, Disconnect, BindWake, OnHolderExit;
    var w := World(sys.core, sys.table, NO_EFFECTS);
    match op {
      case SendRequest(caller, connection, frame, transfer) => SendGrows(w, caller, connection, frame, transfer);
      case ReceiveEvent(caller, connection) => ClientOpsGrow(w, caller, connection, 0);
      case CloseConnection(caller, connection, reason) => ClientOpsGrow(w, caller, connection, reason);
      case ReceiveRequest(caller, serve) => RecvGrows(w, caller, serve);
      case PostEvent(caller, serve, connection, frame) => PostGrows(w, caller, serve, connection, frame);
      case DisconnectClient(caller, serve, connection, reason) => DisconnectGrows(w, caller, serve, connection, reason);
      case BindWorkSet(caller, serve, target, requestBit, noticeBit) =>
        BindWakeGrows(w, caller, serve, target, requestBit, noticeBit);
      case UnregisterPort(key) => if PortLive(sys.core, key) { TeardownGrows(w, key.slot); }
      case HolderExit(holder, generation) => ExitGrows(w, holder, generation);
      case _ =>
    }
  }

  lemma ExitGrows(w: World, holder: u64, generation: u64)
    ensures Grown(w.core, OnHolderExit(w, holder, generation).core)
  {
    ExitPortsGrow(w, holder, generation, |w.core.ports|);
    ExitConnsGrow(ExitPorts(w, holder, generation, |w.core.ports|), holder, generation, |w.core.conns|);
  }

  // ---- over whole runs ----

  lemma {:induction false} RunGrows(sys: System, ops: seq<SystemOp>, j: nat, k: nat)
    requires j <= k <= |ops|
    ensures Grown(Run(sys, ops[..j]).core, Run(sys, ops[..k]).core)
  {
    hide Step;
    if j < k {
      RunGrows(sys, ops, j, k - 1);
      assert ops[..k][..k - 1] == ops[..k - 1];
      StepGrows(Run(sys, ops[..k - 1]), ops[k - 1]);
    }
  }

  /** In every run, the list of owed effects of every operation is complete. */
  lemma EffectsNeverOverflow(sys: System, ops: seq<SystemOp>, op: SystemOp)
    requires Coupled(sys) && SizesFit(sys.core)
    ensures Bounded(Step(Run(sys, ops), op))
  {
    hide Step;
    EveryRunIsCoupled(sys, ops);
    RunGrows(sys, ops, 0, |ops|);
    assert ops[..0] == [] && ops[..|ops|] == ops;
    StepEffectsBounded(Run(sys, ops), op);
  }

  /** The connection id an operation hands out. */
  function ConnectionIssued(sys: System, op: SystemOp): Option<SlotId> {
    match op
    case ConnectTo(caller, handle, c, id) =>
      (match Connect(sys.core, sys.table, caller, handle, c, id).1
       case Success(conn) => Some(conn)
       case Failure(_) => None)
    case _ => None
  }

  lemma ConnectionIsNew(sys: System, op: SystemOp)
    requires ConnectionIssued(sys, op).Some?
    ensures var id := ConnectionIssued(sys, op).value;
            && id.slot < |sys.core.conns| && id.slot < |Step(sys, op).core.conns|
            && sys.core.conns[id.slot].generation < id.generation == Step(sys, op).core.conns[id.slot].generation
  {
    hide ConnectTarget;
  }

  /** No connection id is handed out twice in a run. */
  lemma ConnectionIdsAreUnique(sys: System, ops: seq<SystemOp>, j: nat, k: nat)
    requires j < k < |ops|
    requires ConnectionIssued(Run(sys, ops[..j]), ops[j]).Some?
    requires ConnectionIssued(Run(sys, ops[..k]), ops[k]).Some?
    ensures ConnectionIssued(Run(sys, ops[..j]), ops[j]) != ConnectionIssued(Run(sys, ops[..k]), ops[k])
  {
    hide Step, ConnectionIssued;
    RunGrows(sys, ops, j + 1, k);
    assert ops[..j + 1][..j] == ops[..j];
    ConnectionIsNew(Run(sys, ops[..j]), ops[j]);
    ConnectionIsNew(Run(sys, ops[..k]), ops[k]);
  }

  /** The capability handle an operation hands out, to its caller or with a queued request. */
  function HandleIssued(sys: System, op: SystemOp): Option<SlotId> {
    match op
    case TableStep(t) => TableIssues(sys.table, t)
    case SendRequest(caller, connection, frame, transfer) =>
      var w := World(sys.core, sys.table, NO_EFFECTS);
      if Send(w, caller, connection, frame, transfer).1.Failure? then None
      else
        (match ChildSent(w, SendSlot(sys.core, caller, connection), caller.holder, transfer)
         case None => None
         case Some(cap) => DecodeId(cap.handle))
    case _ => None
  }

  /** An accepted transfer issues the handle that its request carries, for a child of the sender's handle. */
  lemma SendIssues(w: World, caller: Caller, connection: nat, frame: Frame, transfer: Transfer)
    requires |w.table| <= MAX_SLOT_COUNT && Send(w, caller, connection, frame, Some(transfer)).1.Success?
    ensures var t := Send(w, caller, connection, frame, Some(transfer)).0.table;
            var i := SendSlot(w.core, caller, connection);
            && i < |w.core.ports| && ChildSent(w, i, caller.holder, Some(transfer)).Some?
            && DecodeId(ChildSent(w, i, caller.holder, Some(transfer)).value.handle).Some?
            && var h := DecodeId(ChildSent(w, i, caller.holder, Some(transfer)).value.handle).value;
            && Issues(w.table, t, h) && transfer.handle.slot < |w.table|
            && t[h.slot] == HandedOver(w.table, transfer, w.core.ports[i].server, h.generation)
  {
    hide InstallChild, Send, HandedOver, Ages, ChildOk;
    AcceptedSend(w, caller, connection, frame, Some(transfer));
    var server := w.core.ports[SendSlot(w.core, caller, connection)].server;
    InstallChildIssues(w.table, caller.holder, transfer, server);
  }

  lemma StepIssues(sys: System, op: SystemOp)
    requires Coupled(sys) && HandleIssued(sys, op).Some?
    ensures Issues(sys.table, Step(sys, op).table, HandleIssued(sys, op).value)
  {
    hide ApplyTable, Send;
    match op {
      case TableStep(t) => TableOpAges(sys.table, t);
      case SendRequest(caller, connection, frame, transfer) =>
        SendIssues(World(sys.core, sys.table, NO_EFFECTS), caller, connection, frame, transfer.value);
    }
  }

  ghost function Tables(sys: System, ops: seq<SystemOp>): seq<Slots> {
    seq(|ops| + 1, k requires 0 <= k <= |ops| => Run(sys, ops[..k]).table)
  }

  ghost function Handles(sys: System, ops: seq<SystemOp>): seq<Option<SlotId>> {
    seq(|ops|, k requires 0 <= k < |ops| => HandleIssued(Run(sys, ops[..k]), ops[k]))
  }

  lemma SystemRunAges(sys: System, ops: seq<SystemOp>)
    requires Coupled(sys)
    ensures History(Tables(sys, ops), Handles(sys, ops))
  {
    hide Step, HandleIssued;
    forall k | 0 <= k < |ops|
      ensures Ages(Tables(sys, ops)[k], Tables(sys, ops)[k + 1])
      ensures Handles(sys, ops)[k].Some? ==>
                Issues(Tables(sys, ops)[k], Tables(sys, ops)[k + 1], Handles(sys, ops)[k].value)
    {
      EveryRunIsCoupled(sys, ops[..k]);
      assert ops[..k + 1][..k] == ops[..k];
      StepKeepsCoupled(Run(sys, ops[..k]), ops[k]);
      if Handles(sys, ops)[k].Some? {
        StepIssues(Run(sys, ops[..k]), ops[k]);
      }
    }
  }

  /** No capability handle is handed out twice in a run, and a spent one never resolves again. */
  lemma HandlesAreUnique(sys: System, ops: seq<SystemOp>, j: nat, k: nat)
    requires Coupled(sys) && j < k <= |ops| && Handles(sys, ops)[j].Some?
    ensures k < |ops| ==> Handles(sys, ops)[j] != Handles(sys, ops)[k]
    ensures forall m :: j < m <= k && !Resolves(Tables(sys, ops)[m], Handles(sys, ops)[j].value)
              ==> !Resolves(Tables(sys, ops)[k], Handles(sys, ops)[j].value)
  {
    hide Step, HandleIssued;
    SystemRunAges(sys, ops);
    var tables, handles := Tables(sys, ops), Handles(sys, ops);
    if k < |ops| && handles[k].Some? {
      NeverReissued(tables, handles, j, k);
    }
    forall m | j < m <= k && !Resolves(tables[m], handles[j].value) ensures !Resolves(tables[k], handles[j].value) {
      ReleasedIsFinal(tables, handles, j, m, k, 0, EMPTY_RECORD.resource, {});
    }
  }
}
