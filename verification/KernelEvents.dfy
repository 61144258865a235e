/** Posted events over whole runs: what a client receives is a prefix of what its server posted to it. */
module KernelEvents {
  import opened Wrappers
  import opened Capability
  import opened SlotOps
  import opened Counting
  import opened PortTypes
  import opened PortSteps
  import opened PortInvariant
  import opened Kernel

  /** The connection is in a state in which its queued events can still be received. */
  predicate Holding(c: Connection) {
    c.state.Open? || c.state.ServerClosed?
  }

  // ---- what a step posts and receives ----

  /** The event that a step posts, and to which connection. */
  function Posts(sys: System, op: SystemOp): Option<(SlotId, Event)> {
    var w := World(sys.core, sys.table, NO_EFFECTS);
    if op.PostEvent? && Post(w, op.caller, op.serve, op.connection, op.frame).1.Success? then
      var i := AuthorizeServe(sys.core, sys.table, op.caller, op.serve).value;
      Some((ConnId(sys.core, ServedOpen(sys.core, i, op.connection).value), Event(sys.core.ports[i].nextSeq, op.frame)))
    else None
  }

  /** The event that a step hands to a client, and on which connection. */
  function Receives(sys: System, op: SystemOp): Option<(SlotId, Event)> {
    var w := World(sys.core, sys.table, NO_EFFECTS);
    if op.ReceiveEvent? && RecvEvent(w, op.caller, op.connection).1.Success?
       && RecvEvent(w, op.caller, op.connection).1.value.kind.FrameEvent? then
      var r := RecvEvent(w, op.caller, op.connection).1.value;
      Some((ConnId(sys.core, ClientConnection(sys.core, op.caller, op.connection).value), Event(r.kernelSeq, r.frame)))
    else None
  }

  /** Appends what happened if it concerns connection `id`. */
  function Append(s: seq<Event>, what: Option<(SlotId, Event)>, id: SlotId): seq<Event> {
    if what.Some? && what.value.0 == id then s + [what.value.1] else s
  }

  function PostedTo(sys: System, ops: seq<SystemOp>, id: SlotId): seq<Event> {
    if ops == [] then []
    else
      var before := ops[..|ops| - 1];
      Append(PostedTo(sys, before, id), Posts(Run(sys, before), ops[|ops| - 1]), id)
  }

  function ReceivedOn(sys: System, ops: seq<SystemOp>, id: SlotId): seq<Event> {
    if ops == [] then []
    else
      var before := ops[..|ops| - 1];
      Append(ReceivedOn(sys, before, id), Receives(Run(sys, before), ops[|ops| - 1]), id)
  }

  // ---- changes that neither post nor receive ----

  /** `d` holds the events `c` held, none at all if it is a new connection, or can no longer be read. */
  predicate EventsKept(c: Connection, d: Connection) {
    && c.generation <= d.generation
    && (Holding(d) ==>
          if d.generation == c.generation then Holding(c) && d.Queue() == c.Queue() else d.Queue() == [])
  }

  predicate AllKept(core: Core, after: Core) {
    |core.conns| == |after.conns| && forall j :: 0 <= j < |core.conns| ==> EventsKept(core.conns[j], after.conns[j])
  }

  lemma KeptTransitive(a: Core, b: Core, c: Core)
    requires AllKept(a, b) && AllKept(b, c)
    ensures AllKept(a, c)
  {
    forall j | 0 <= j < |a.conns| ensures EventsKept(a.conns[j], c.conns[j]) {
      assert EventsKept(a.conns[j], b.conns[j]) && EventsKept(b.conns[j], c.conns[j]);
    }
  }

  lemma SameConnsKept(core: Core, after: Core)
    requires after.conns == core.conns
    ensures AllKept(core, after)
  {
  }

  lemma OneConnKept(core: Core, after: Core, j: nat)
    requires j < |core.conns| == |after.conns| && after.conns == core.conns[j := after.conns[j]]
    requires EventsKept(core.conns[j], after.conns[j])
    ensures AllKept(core, after)
  {
    hide EventsKept;
    forall x | 0 <= x < |core.conns| && x != j ensures EventsKept(core.conns[x], after.conns[x]) {
      KeptReflexive(core.conns[x]);
    }
  }

  lemma KeptReflexive(c: Connection)
    ensures EventsKept(c, c)
  {
  }

  lemma BeginCloseKeeps(w: World, j: nat, kind: RecvKind, reason: u32)
    requires j < |w.core.conns|
    ensures AllKept(w.core, BeginClose(w, j, kind, reason).core)
  {
    hide AllKept;
    SameConnsKept(w.core, w.core);
    var after := BeginClose(w, j, kind, reason).core;
    if after != w.core { OneConnKept(w.core, after, j); }
  }

  lemma ConsumeKeeps(w: World, j: nat)
    requires j < |w.core.conns|
    ensures AllKept(w.core, ConsumeTerminal(w, j).core)
  {
    hide AllKept;
    OneConnKept(w.core, ConsumeTerminal(w, j).core, j);
  }

  lemma EndByServerKeeps(w: World, i: nat, j: nat, reason: u32)
    requires i < |w.core.ports| && j < |w.core.conns| && w.core.conns[j].state.Open?
    ensures AllKept(w.core, EndByServer(w, i, j, reason).core)
  {
    hide AllKept;
    OneConnKept(w.core, EndByServer(w, i, j, reason).core, j);
  }

  lemma TeardownKeeps(w: World, i: nat)
    requires i < |w.core.ports|
    ensures AllKept(w.core, Teardown(w, i).core)
  {
    hide Teardown;
    TeardownShape(w, i);
  }

  lemma EnqueueKeeps(w: World, j: nat, i: nat, caller: Caller, rights: Rights, frame: Frame,
                     child: Option<TransferredCap>)
    requires i < |w.core.ports| && j < |w.core.conns| && HasRoom(w.core, j, i, child.Some?)
    ensures AllKept(w.core, Enqueue(w, j, i, caller, rights, frame, child).core)
  {
    hide AllKept;
    OneConnKept(w.core, Enqueue(w, j, i, caller, rights, frame, child).core, j);
  }

  lemma SendKeeps(w: World, caller: Caller, connection: nat, frame: Frame, transfer: Option<Transfer>)
    ensures AllKept(w.core, Send(w, caller, connection, frame, transfer).0.core)
  {
    hide AllKept, BeginClose, Enqueue, InstallChild, ValidateTransfer, AuthorizeAt;
    SameConnsKept(w.core, w.core);
    var found := ClientConnection(w.core, caller, connection);
    if found.Success? {
      var j := found.value;
      BeginCloseKeeps(w, j, ClientRevoked, 0);
      var i := w.core.conns[j].port.slot;
      if PortLive(w.core, w.core.conns[j].port) && HasRoom(w.core, j, i, transfer.Some?)
         && ReauthorizeClient(w, j, i).1.Success?
      {
        var auth := ReauthorizeClient(w, j, i).1;
        EnqueueKeeps(w, j, i, caller, auth.value, frame, None);
        if transfer.Some? && ValidateTransfer(w.table, caller.holder, transfer.value).Success? {
          var (t, cap) := InstallChild(w.table, w.core.ports[i].server,
                                       ValidateTransfer(w.table, caller.holder, transfer.value).value);
          if cap.Success? { EnqueueKeeps(w.(table := t), j, i, caller, auth.value, frame, Some(cap.value)); }
        }
      }
    }
  }

  lemma CloseKeeps(w: World, caller: Caller, connection: nat, reason: u32)
    ensures AllKept(w.core, Close(w, caller, connection, reason).0.core)
  {
    hide AllKept, BeginClose, ConsumeTerminal;
    SameConnsKept(w.core, w.core);
    var found := ClientConnection(w.core, caller, connection);
    if found.Success? {
      BeginCloseKeeps(w, found.value, ClientClosed, reason);
      ConsumeKeeps(w, found.value);
    }
  }

  lemma RecvKeeps(w: World, caller: Caller, serve: nat)
    ensures AllKept(w.core, Recv(w, caller, serve).0.core)
  {
    hide AuthorizeServe, AllKept;
    SameConnsKept(w.core, w.core);
    var after := Recv(w, caller, serve).0.core;
    var served := AuthorizeServe(w.core, w.table, caller, serve);
    if served.Success? && after != w.core {
      var i := served.value;
      var notice := FindLeast(w.core.conns, NoticeFor(Key(w.core, i)), CLOSE_SEQ);
      if notice.Some? {
        OneConnKept(w.core, after, notice.value);
      } else {
        var k := FindLeast(w.core.ports[i].requests, LIVE, REQUEST_SEQ).value;
        DequeueKeeps(w.core, i, k);
      }
    }
  }

  lemma DequeueKeeps(core: Core, i: nat, k: nat)
    requires i < |core.ports| && k < PORT_MAX_REQUEST_QUEUE_DEPTH
    ensures AllKept(core, Dequeue(core, i, k))
  {
    hide AllKept;
    var j := core.ports[i].requests[k].connection.slot;
    SameConnsKept(core, Dequeue(core, i, k).(conns := core.conns));
    if Dequeue(core, i, k).conns != core.conns { OneConnKept(core, Dequeue(core, i, k), j); }
  }

  lemma ConnectKeeps(core: Core, table: Slots, caller: Caller, handle: nat, rawClass: nat, id: u64)
    ensures AllKept(core, Connect(core, table, caller, handle, rawClass, id).0)
  {
    hide AllKept, ConnectTarget;
    SameConnsKept(core, core);
    var (after, r) := Connect(core, table, caller, handle, rawClass, id);
    if r.Success? { OneConnKept(core, after, r.value.slot); }
  }

  lemma {:induction false} ExitPortsKeep(w: World, holder: u64, generation: u64, k: nat)
    requires k <= |w.core.ports|
    ensures AllKept(w.core, ExitPorts(w, holder, generation, k).core)
  {
    hide AllKept, Teardown;
    SameConnsKept(w.core, w.core);
    if k > 0 {
      ExitPortsKeep(w, holder, generation, k - 1);
      var w1 := ExitPorts(w, holder, generation, k - 1);
      TeardownKeeps(w1, k - 1);
      KeptTransitive(w.core, w1.core, Teardown(w1, k - 1).core);
    }
  }

  lemma {:induction false} ExitConnsKeep(w: World, holder: u64, generation: u64, k: nat)
    requires k <= |w.core.conns|
    ensures AllKept(w.core, ExitConns(w, holder, generation, k).core)
  {
    hide AllKept, ExitConn;
    SameConnsKept(w.core, w.core);
    if k > 0 {
      ExitConnsKeep(w, holder, generation, k - 1);
      var w1 := ExitConns(w, holder, generation, k - 1);
      ExitConnKeeps(w1, holder, generation, k - 1);
      KeptTransitive(w.core, w1.core, ExitConn(w1, holder, generation, k - 1).core);
    }
  }

  lemma ExitConnKeeps(w: World, holder: u64, generation: u64, j: nat)
    requires j < |w.core.conns|
    ensures AllKept(w.core, ExitConn(w, holder, generation, j).core)
  {
    hide AllKept, BeginClose, ConsumeTerminal;
    SameConnsKept(w.core, w.core);
    BeginCloseKeeps(w, j, ClientExited, 0);
    ConsumeKeeps(w, j);
  }

  lemma ExitKeeps(w: World, holder: u64, generation: u64)
    ensures AllKept(w.core, OnHolderExit(w, holder, generation).core)
  {
    hide AllKept, ExitPorts, ExitConns;
    var w1 := ExitPorts(w, holder, generation, |w.core.ports|);
    ExitPortsKeep(w, holder, generation, |w.core.ports|);
    ExitConnsKeep(w1, holder, generation, |w.core.conns|);
    KeptTransitive(w.core, w1.core, OnHolderExit(w, holder, generation).core);
  }

  /** A receive that yields no event keeps the events of every connection. */
  lemma RecvEventKeeps(w: World, caller: Caller, connection: nat)
    requires var r := RecvEvent(w, caller, connection).1; !(r.Success? && r.value.kind.FrameEvent?)
    ensures AllKept(w.core, RecvEvent(w, caller, connection).0.core)
  {
    hide AllKept, BeginClose, ConsumeTerminal, AuthorizeAt;
    SameConnsKept(w.core, w.core);
    var found := ClientConnection(w.core, caller, connection);
    if found.Success? {
      BeginCloseKeeps(w, found.value, ClientRevoked, 0);
      ConsumeKeeps(w, found.value);
    }
  }

  lemma RefusedPostKeeps(w: World, caller: Caller, serve: nat, connection: nat, frame: Frame)
    requires Post(w, caller, serve, connection, frame).1.Failure?
    ensures AllKept(w.core, Post(w, caller, serve, connection, frame).0.core)
  {
    hide AuthorizeServe;
  }

  lemma DisconnectKeeps(w: World, caller: Caller, serve: nat, connection: nat, reason: u32)
    ensures AllKept(w.core, Disconnect(w, caller, serve, connection, reason).0.core)
  {
    hide AllKept, AuthorizeServe, EndByServer;
    SameConnsKept(w.core, w.core);
    var served := AuthorizeServe(w.core, w.table, caller, serve);
    if served.Success? && ServedOpen(w.core, served.value, connection).Success? {
      EndByServerKeeps(w, served.value, ServedOpen(w.core, served.value, connection).value, reason);
    }
  }

  lemma BindWakeKeeps(w: World, caller: Caller, serve: nat, target: WorkSet, requestBit: nat, noticeBit: nat)
    ensures AllKept(w.core, BindWake(w, caller, serve, target, requestBit, noticeBit).0.core)
  {
    hide AuthorizeServe, AllKept;
    SameConnsKept(w.core, BindWake(w, caller, serve, target, requestBit, noticeBit).0.core);
  }

  lemma OtherStepsKeep(sys: System, op: SystemOp)
    requires Posts(sys, op).None? && Receives(sys, op).None?
    ensures AllKept(sys.core, Step(sys, op).core)
  {
    hide AllKept, ApplyTable, Teardown, Send, RecvEvent, Close, Recv, Post, Disconnect, BindWake, OnHolderExit,
         Connect, AuthorizeServe;
    var w := World(sys.core, sys.table, NO_EFFECTS);
    SameConnsKept(sys.core, sys.core);
    match op {
      case TableStep(_) =>
      case RegisterPort(resource, server, generation, params) =>
        SameConnsKept(sys.core, Register(sys.core, resource, server, generation, params).0);
      case UnregisterPort(key) => if PortLive(sys.core, key) { TeardownKeeps(w, key.slot); }
      case ConnectTo(caller, handle, c, id) => ConnectKeeps(sys.core, sys.table, caller, handle, c, id);
      case SendRequest(caller, connection, frame, transfer) => SendKeeps(w, caller, connection, frame, transfer);
      case ReceiveEvent(caller, connection) => RecvEventKeeps(w, caller, connection);
      case CloseConnection(caller, connection, reason) => CloseKeeps(w, caller, connection, reason);
      case ReceiveRequest(caller, serve) => RecvKeeps(w, caller, serve);
      case PostEvent(caller, serve, connection, frame) => RefusedPostKeeps(w, caller, serve, connection, frame);
      case DisconnectClient(caller, serve, connection, reason) => DisconnectKeeps(w, caller, serve, connection, reason);
      case BindWorkSet(caller, serve, target, requestBit, noticeBit) =>
        BindWakeKeeps(w, caller, serve, target, requestBit, noticeBit);
      case HolderExit(holder, generation) => ExitKeeps(w, holder, generation);
    }
  }

  // ---- posting and receiving ----

  /** A post appends to the queue of its connection and touches no other. */
  lemma PostAppends(sys: System, op: SystemOp)
    requires Inv(sys.core) && Posts(sys, op).Some?
    ensures var (id, e) := Posts(sys, op).value;
            var after := Step(sys, op).core;
            && id.slot < |sys.core.conns| == |after.conns| && ConnId(sys.core, id.slot) == id == ConnId(after, id.slot)
            && Holding(sys.core.conns[id.slot]) && Holding(after.conns[id.slot])
            && after.conns[id.slot].Queue() == sys.core.conns[id.slot].Queue() + [e]
            && forall x :: 0 <= x < |after.conns| && x != id.slot ==> after.conns[x] == sys.core.conns[x]
  {
    hide AuthorizeServe;
    var (id, e) := Posts(sys, op).value;
    assert ConnOk(sys.core, id.slot) && PortOk(sys.core, sys.core.conns[id.slot].port.slot);
    PushAppends(sys.core.conns[id.slot], e);
  }

  /** A received event was the oldest of its connection; no other connection changes. */
  lemma ReceiveTakesOldest(sys: System, op: SystemOp)
    requires Inv(sys.core) && Receives(sys, op).Some?
    ensures var (id, e) := Receives(sys, op).value;
            var after := Step(sys, op).core;
            && id.slot < |sys.core.conns| == |after.conns| && ConnId(sys.core, id.slot) == id == ConnId(after, id.slot)
            && Holding(sys.core.conns[id.slot])
            && sys.core.conns[id.slot].Queue() == [e] + after.conns[id.slot].Queue()
            && forall x :: 0 <= x < |after.conns| && x != id.slot ==> after.conns[x] == sys.core.conns[x]
  {
    hide AuthorizeAt, BeginClose;
    var (id, e) := Receives(sys, op).value;
    assert ConnOk(sys.core, id.slot) && PortOk(sys.core, sys.core.conns[id.slot].port.slot);
    PopTakesOldest(sys.core.conns[id.slot]);
  }

  // ---- every run ----

  /** Received is a prefix of posted, and while the connection can be read its queue is the rest. */
  predicate EventsOk(core: Core, id: SlotId, posted: seq<Event>, received: seq<Event>) {
    && received <= posted
    && (id.slot < |core.conns| && core.conns[id.slot].generation < id.generation ==> posted == [])
    && (id.slot < |core.conns| && core.conns[id.slot].generation == id.generation && Holding(core.conns[id.slot]) ==>
          posted == received + core.conns[id.slot].Queue())
  }

  lemma StepKeepsEvents(sys: System, op: SystemOp, id: SlotId, posted: seq<Event>, received: seq<Event>)
    requires Inv(sys.core) && EventsOk(sys.core, id, posted, received)
    ensures EventsOk(Step(sys, op).core, id, Append(posted, Posts(sys, op), id),
                     Append(received, Receives(sys, op), id))
  {
    hide Step, Inv, Posts, Receives, Connection.Queue;
    OneThing(sys, op);
    if Posts(sys, op).Some? {
      PostAppends(sys, op);
      if Posts(sys, op).value.0 == id {
        assert posted + [Posts(sys, op).value.1] == received + Step(sys, op).core.conns[id.slot].Queue();
      }
    } else if Receives(sys, op).Some? {
      ReceiveTakesOldest(sys, op);
      if Receives(sys, op).value.0 == id {
        assert posted == (received + [Receives(sys, op).value.1]) + Step(sys, op).core.conns[id.slot].Queue();
      }
    } else {
      OtherStepsKeep(sys, op);
      if id.slot < |sys.core.conns| { assert EventsKept(sys.core.conns[id.slot], Step(sys, op).core.conns[id.slot]); }
    }
  }

  lemma OneThing(sys: System, op: SystemOp)
    ensures Posts(sys, op).None? || Receives(sys, op).None?
  {
    hide Post, RecvEvent;
  }

  /**
   In every run, what a client received on a connection is a prefix of what the server posted to it:
   each event at most once, unchanged and in posting order.
   */
  lemma {:induction false} ReceivedIsPrefixOfPosted(sys: System, ops: seq<SystemOp>, id: SlotId)
    requires Inv(sys.core) && EventsOk(sys.core, id, [], [])
    ensures Inv(Run(sys, ops).core)
    ensures EventsOk(Run(sys, ops).core, id, PostedTo(sys, ops, id), ReceivedOn(sys, ops, id))
    ensures ReceivedOn(sys, ops, id) <= PostedTo(sys, ops, id)
  {
    hide Step, Inv, Posts, Receives, EventsOk, Append;
    if ops != [] {
      var before := ops[..|ops| - 1];
      ReceivedIsPrefixOfPosted(sys, before, id);
      StepKeepsInv(Run(sys, before), ops[|ops| - 1]);
      StepKeepsEvents(Run(sys, before), ops[|ops| - 1], id, PostedTo(sys, before, id), ReceivedOn(sys, before, id));
    }
    EventsPrefix(Run(sys, ops).core, id, PostedTo(sys, ops, id), ReceivedOn(sys, ops, id));
  }

  lemma EventsPrefix(core: Core, id: SlotId, posted: seq<Event>, received: seq<Event>)
    requires EventsOk(core, id, posted, received)
    ensures received <= posted
  {
  }
}
