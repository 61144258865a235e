/** Runs with their history: every accepted request is accounted for, in every run. */
module KernelHistory {
  import opened Wrappers
  import opened Capability
  import opened SlotOps
  import opened Counting
  import opened PortTypes
  import opened PortSteps
  import opened PortInvariant
  import opened PortTransfers
  import opened PortHistory
  import opened PortDelivery
  import opened Kernel

  /** The port that drew a number because the connection left Open, if it did. */
  function Ending(core: Core, after: Core, found: Result<nat, PortError>): Option<PortKey>
  {
    if found.Success? && found.value < |core.conns| && found.value < |after.conns|
       && core.conns[found.value].state.Open? && !after.conns[found.value].state.Open? then
      Some(core.conns[found.value].port)
    else None
  }

  /** What an accepted SEND submitted, the numbers drawn so far being those of `h`. */
  function Submitted(h: Hist, w: World, caller: Caller, connection: nat, frame: Frame, transfer: Option<Transfer>): Sent
    requires Send(w, caller, connection, frame, transfer).1.Success?
  {
    AcceptedSend(w, caller, connection, frame, transfer);
    var j := ClientConnection(w.core, caller, connection).value;
    var i := SendSlot(w.core, caller, connection);
    Enqueued(h, w.core, j, i, caller, ReauthorizeClient(w, j, i).1.value, frame,
             ChildSent(w, i, caller.holder, transfer))
  }

  /** The numbers drawn as the first `k` connections of an exited client close. */
  function ExitDraws(h: Hist, w: World, holder: u64, generation: u64, k: nat): Hist
    requires k <= |w.core.conns|
  {
    if k == 0 then h
    else
      var before := ExitConns(w, holder, generation, k - 1);
      Noted(ExitDraws(h, w, holder, generation, k - 1),
            Ending(before.core, ExitConn(before, holder, generation, k - 1).core, Success(k - 1)))
  }

  /** What step `t` adds to the history. */
  function Extend(h: Hist, sys: System, op: SystemOp, t: nat): Hist {
    var w := World(sys.core, sys.table, NO_EFFECTS);
    var after := Step(sys, op).core;
    match op
    case SendRequest(caller, connection, frame, transfer) =>
      if Send(w, caller, connection, frame, transfer).1.Success? then
        AcceptedSend(w, caller, connection, frame, transfer);
        var entry := FindFirst(sys.core.ports[SendSlot(sys.core, caller, connection)].requests, FREE_ENTRY);
        Accept(h, t, entry, Submitted(h, w, caller, connection, frame, transfer))
      else Noted(h, Ending(sys.core, after, ClientConnection(sys.core, caller, connection)))
    case ReceiveEvent(caller, connection) =>
      Noted(h, Ending(sys.core, after, ClientConnection(sys.core, caller, connection)))
    case CloseConnection(caller, connection, _) =>
      Noted(h, Ending(sys.core, after, ClientConnection(sys.core, caller, connection)))
    case ReceiveRequest(caller, serve) => Taken(h, w, caller, serve)
    case PostEvent(caller, serve, connection, frame) =>
      if Post(w, caller, serve, connection, frame).1.Success? then
        Draw(h, Key(sys.core, AuthorizeServe(sys.core, sys.table, caller, serve).value))
      else h
    case DisconnectClient(caller, serve, connection, _) =>
      var served := AuthorizeServe(sys.core, sys.table, caller, serve);
      if served.Success? then Noted(h, Ending(sys.core, after, ServedOpen(sys.core, served.value, connection))) else h
    case HolderExit(holder, generation) =>
      ExitDraws(h, ExitPorts(w, holder, generation, |sys.core.ports|), holder, generation, |sys.core.conns|)
    case _ => h
  }

  /** What a RECV adds: the oldest notice, else the queued request with the least number. */
  function Taken(h: Hist, w: World, caller: Caller, serve: nat): Hist {
    match AuthorizeServe(w.core, w.table, caller, serve)
    case Failure(_) => h
    case Success(i) =>
      match FindLeast(w.core.conns, NoticeFor(Key(w.core, i)), CLOSE_SEQ)
      case Some(j) => Notify(h, w.core, i, j)
      case None =>
        match FindLeast(w.core.ports[i].requests, LIVE, REQUEST_SEQ)
        case None => h
        case Some(k) => Deliver(h, w.core, i, k)
  }

  // ---- one step ----

  /** Nothing already settled comes back: what was not queued is neither queued nor delivered anew. */
  ghost predicate Settled(h: Hist, core: Core, h': Hist, after: Core) {
    forall m: nat :: m in h.sent ==>
      && m in h'.sent && h'.sent[m] == h.sent[m]
      && (Queued(h', after, m) ==> Queued(h, core, m))
      && (Delivered(h', m) ==> Delivered(h, m) || Queued(h, core, m))
  }

  ghost predicate Kept(h: Hist, core: Core, h': Hist, after: Core) {
    HistoryOk(h', after) && Settled(h, core, h', after)
  }

  lemma QuietKeeps(h: Hist, core: Core, after: Core, drawn: Option<PortKey>)
    requires Inv(core) && HistoryOk(h, core) && Quiet(core, after, drawn)
    ensures Kept(h, core, Noted(h, drawn), after)
  {
    hide Inv, HistoryOk, Quiet, Queued;
    QuietKeepsHistory(h, core, after, drawn);
    forall m: nat | m in h.sent && Queued(Noted(h, drawn), after, m) ensures Queued(h, core, m) {
      QuietUnqueues(h, core, after, drawn, m);
    }
    assert forall m: nat :: Delivered(Noted(h, drawn), m) == Delivered(h, m);
  }

  lemma SameKeeps(h: Hist, core: Core)
    requires HistoryOk(h, core)
    ensures Kept(h, core, h, core)
  {
  }

  // ---- accepting ----

  lemma AcceptKeeps(h: Hist, core: Core, after: Core, t: nat, i: nat, k: nat, r: Request, s: Sent)
    requires HistoryOk(h, core) && Accepts(h, core, after, t, i, k, r, s)
    ensures Kept(h, core, Accept(h, t, k, s), after)
  {
    hide Accepts, Queued, FatesOk, ClockOk, OrderOk, NoticesOk;
    AcceptKeepsHistory(h, core, after, t, i, k, r, s);
    AcceptIsNew(h, core, after, t, i, k, r, s);
    forall m: nat | m in h.sent ensures Queued(Accept(h, t, k, s), after, m) == Queued(h, core, m) {
      AcceptKeepsQueued(h, core, after, t, i, k, r, s, m);
    }
    assert forall m: nat :: Delivered(Accept(h, t, k, s), m) == Delivered(h, m);
  }

  lemma AcceptIsNew(h: Hist, core: Core, after: Core, t: nat, i: nat, k: nat, r: Request, s: Sent)
    requires Accepts(h, core, after, t, i, k, r, s)
    ensures t !in h.sent
  {
  }

  lemma SendKeeps(h: Hist, w: World, t: nat, caller: Caller, connection: nat, frame: Frame, transfer: Option<Transfer>)
    requires Inv(w.core) && HistoryOk(h, w.core) && Send(w, caller, connection, frame, transfer).1.Success?
    requires forall m :: m in h.sent ==> m < t
    ensures ClientConnection(w.core, caller, connection).Success?
    ensures SendSlot(w.core, caller, connection) < |w.core.ports|
    ensures var entry := FindFirst(w.core.ports[SendSlot(w.core, caller, connection)].requests, FREE_ENTRY);
            Kept(h, w.core, Accept(h, t, entry, Submitted(h, w, caller, connection, frame, transfer)),
                 Send(w, caller, connection, frame, transfer).0.core)
  {
    hide Kept, HistoryOk, Accepts, Enqueue, InstallChild, ValidateTransfer, AuthorizeAt, ReauthorizeClient, Send;
    AcceptedSend(w, caller, connection, frame, transfer);
    HistoryIsClocked(h, w.core);
    var j := ClientConnection(w.core, caller, connection).value;
    var i := SendSlot(w.core, caller, connection);
    var rights, child := ReauthorizeClient(w, j, i).1.value, ChildSent(w, i, caller.holder, transfer);
    var w1 := w.(table := TableSent(w, i, caller.holder, transfer));
    var k, r := EnqueueAccepts(h, w1, t, j, i, caller, rights, frame, child);
    AcceptKeeps(h, w.core, Enqueue(w1, j, i, caller, rights, frame, child).core, t, i, k, r,
                Enqueued(h, w.core, j, i, caller, rights, frame, child));
  }

  lemma HistoryIsClocked(h: Hist, core: Core)
    requires HistoryOk(h, core)
    ensures ClockOk(h, core)
  {
  }

  /** A SEND that fails closes the connection of a client whose capability lapsed, or changes no port. */
  lemma RefusedIsQuiet(w: World, caller: Caller, connection: nat, frame: Frame, transfer: Option<Transfer>)
    requires Inv(w.core) && Send(w, caller, connection, frame, transfer).1.Failure?
    ensures var after := Send(w, caller, connection, frame, transfer).0.core;
            Quiet(w.core, after, Ending(w.core, after, ClientConnection(w.core, caller, connection)))
  {
    hide Quiet, BeginClose, Send, ClientCapHolds, OnlyReclaimed, Inv;
    QuietSelf(w.core);
    FailedSendChangesNothing(w, caller, connection, frame, transfer);
    var found := ClientConnection(w.core, caller, connection);
    if found.Success? && w.core.conns[found.value].state.Open? && !ClientCapHolds(w, found.value) {
      BeginCloseIsQuiet(w, found.value, ClientRevoked, 0);
      SameSize(w.core, BeginClose(w, found.value, ClientRevoked, 0).core, Some(w.core.conns[found.value].port));
    }
  }

  lemma SameSize(core: Core, after: Core, drawn: Option<PortKey>)
    requires Quiet(core, after, drawn)
    ensures |core.ports| == |after.ports| && |core.conns| == |after.conns|
  {
  }

  // ---- delivering ----

  /** What a RECV logs is what the server received. */
  lemma TakenIsReceived(h: Hist, w: World, caller: Caller, serve: nat)
    requires Inv(w.core)
    ensures match Recv(w, caller, serve).1
            case Failure(_) => Taken(h, w, caller, serve) == h && Recv(w, caller, serve).0.core == w.core
            case Success(r) =>
              && |Taken(h, w, caller, serve).log| == |h.log| + 1
              && Taken(h, w, caller, serve).log[|h.log|].record == r
              && Taken(h, w, caller, serve).log[|h.log|].port
                 == Key(w.core, AuthorizeServe(w.core, w.table, caller, serve).value)
  {
    hide AuthorizeServe, Dequeue;
  }

  lemma RecvKeeps(h: Hist, w: World, caller: Caller, serve: nat)
    requires Inv(w.core) && HistoryOk(h, w.core)
    ensures Kept(h, w.core, Taken(h, w, caller, serve), Recv(w, caller, serve).0.core)
  {
    hide Kept, HistoryOk, AuthorizeServe, Dequeue, Inv, Delivers, Notify, Deliver;
    SameKeeps(h, w.core);
    var served := AuthorizeServe(w.core, w.table, caller, serve);
    if served.Success? {
      var i := served.value;
      var notice := FindLeast(w.core.conns, NoticeFor(Key(w.core, i)), CLOSE_SEQ);
      var entry := FindLeast(w.core.ports[i].requests, LIVE, REQUEST_SEQ);
      if notice.Some? {
        NotifyKeeps(h, w.core, i, notice.value);
      } else if entry.Some? {
        DequeueKeeps(h, w.core, i, entry.value);
      }
    }
  }

  lemma DequeueKeeps(h: Hist, core: Core, i: nat, k: nat)
    requires HistoryOk(h, core) && i < |core.ports| && core.ports[i].live
    requires FindLeast(core.ports[i].requests, LIVE, REQUEST_SEQ) == Some(k)
    ensures Filled(core, i, k) && Kept(h, core, Deliver(h, core, i, k), Dequeue(core, i, k))
  {
    hide Dequeue, ClockOk, OrderOk, NoticesOk, Queued, Delivered;
    var after := Dequeue(core, i, k);
    DequeueShape(core, i, k);
    DeliverKeepsHistory(h, core, after, i, k);
    assert EntryOk(h, core, i, k);
    var m := OwnerAt(h, i, k);
    EntryIsQueued(h, core, i, k);
    forall n: nat ensures Queued(Deliver(h, core, i, k), after, n) ==> Queued(h, core, n) {
      DeliverKeepsQueued(h, core, after, i, k, n);
    }
    forall n: nat ensures Delivered(Deliver(h, core, i, k), n) <==> Delivered(h, n) || n == m {
      LogDelivers(h, Key(core, i), Some(m), Receipt(core.ports[i].requests[k]), n);
    }
  }

  lemma EntryIsQueued(h: Hist, core: Core, i: nat, k: nat)
    requires Filled(core, i, k) && EntryOk(h, core, i, k) && core.ports[i].live
    ensures Queued(h, core, OwnerAt(h, i, k))
  {
  }

  lemma NotifyKeeps(h: Hist, core: Core, i: nat, j: nat)
    requires Inv(core) && HistoryOk(h, core) && i < |core.ports| && core.ports[i].live
    requires FindLeast(core.conns, NoticeFor(Key(core, i)), CLOSE_SEQ) == Some(j)
    ensures Pending(core, j)
    ensures Kept(h, core, Notify(h, core, i, j), core.(conns := core.conns[j := core.conns[j].Freed()]))
  {
    hide Inv, ClockOk, NoticesOk, FatesOk, OrderOk, Delivered;
    assert NoticeFor(Key(core, i))(core.conns[j]);
    var after := core.(conns := core.conns[j := core.conns[j].Freed()]);
    NotifyKeepsHistory(h, core, i, j);
    NoticeIsNotRequest(core, j);
    LogKeepsRequests(h, core, Key(core, i), NoticeRecord(core, j));
  }

  lemma NoticeIsNotRequest(core: Core, j: nat)
    requires Inv(core) && Pending(core, j)
    ensures !NoticeRecord(core, j).kind.RequestReceived?
  {
    assert ConnOk(core, j);
  }

  // ---- the other operations ----

  lemma FreeIsQuiet(w: World, j: nat)
    requires Inv(w.core) && j < |w.core.conns| && !w.core.conns[j].state.Free?
    ensures Quiet(w.core, ConsumeTerminal(w, j).core, None)
  {
    assert ConnOk(w.core, j);
    SetConnIsQuiet(w.core, j, w.core.conns[j].Freed());
  }

  lemma QuietSelf(core: Core)
    requires Inv(core)
    ensures Quiet(core, core, None)
  {
    forall i | 0 <= i < |core.ports| ensures QuietPort(core, core, i, None) { assert PortOk(core, i); }
    forall j | 0 <= j < |core.conns| ensures QuietConn(core, core, j, None) { assert ConnOk(core, j); }
  }

  lemma RecvEventIsQuiet(w: World, caller: Caller, connection: nat)
    requires Inv(w.core)
    ensures var after := RecvEvent(w, caller, connection).0.core;
            Quiet(w.core, after, Ending(w.core, after, ClientConnection(w.core, caller, connection)))
  {
    hide Quiet, BeginClose, AuthorizeAt;
    QuietSelf(w.core);
    var found := ClientConnection(w.core, caller, connection);
    if found.Success? {
      var j := found.value;
      var c := w.core.conns[j];
      assert ConnOk(w.core, j);
      if (c.state.Open? || c.state.ServerClosed?) && c.eventLen != 0 {
        SetConnIsQuiet(w.core, j, c.PopEvent());
      } else if c.state.Open? {
        BeginCloseIsQuiet(w, j, ClientRevoked, 0);
        SameSize(w.core, BeginClose(w, j, ClientRevoked, 0).core, Some(c.port));
      } else {
        FreeIsQuiet(w, j);
      }
    }
  }

  lemma CloseIsQuiet(w: World, caller: Caller, connection: nat, reason: u32)
    requires Inv(w.core)
    ensures var after := Close(w, caller, connection, reason).0.core;
            Quiet(w.core, after, Ending(w.core, after, ClientConnection(w.core, caller, connection)))
  {
    hide Quiet, BeginClose, Inv;
    QuietSelf(w.core);
    var found := ClientConnection(w.core, caller, connection);
    if found.Success? {
      if w.core.conns[found.value].state.Open? {
        BeginCloseIsQuiet(w, found.value, ClientClosed, reason);
        SameSize(w.core, BeginClose(w, found.value, ClientClosed, reason).core, Some(w.core.conns[found.value].port));
      } else {
        FreeIsQuiet(w, found.value);
      }
    }
  }

  lemma ConnectIsQuiet(core: Core, table: Slots, caller: Caller, handle: nat, rawClass: nat, id: u64)
    requires Inv(core)
    ensures Quiet(core, Connect(core, table, caller, handle, rawClass, id).0, None)
  {
    hide Quiet, ConnectTarget, Inv;
    QuietSelf(core);
    var (after, r) := Connect(core, table, caller, handle, rawClass, id);
    if r.Success? {
      SetConnIsQuiet(core, r.value.slot, after.conns[r.value.slot]);
    }
  }

  lemma PostKeeps(h: Hist, w: World, caller: Caller, serve: nat, connection: nat, frame: Frame)
    requires Inv(w.core) && HistoryOk(h, w.core) && Post(w, caller, serve, connection, frame).1.Success?
    ensures Kept(h, w.core, Draw(h, Key(w.core, AuthorizeServe(w.core, w.table, caller, serve).value)),
                 Post(w, caller, serve, connection, frame).0.core)
  {
    hide HistoryOk, Quiet, AuthorizeServe, Inv, Kept;
    var i := AuthorizeServe(w.core, w.table, caller, serve).value;
    var j := ServedOpen(w.core, i, connection).value;
    var drawn := DrawSeq(w.core, i);
    var key := Key(w.core, i);
    SetPortIsQuiet(w.core, i, drawn.ports[i], Some(key));
    QuietKeeps(h, w.core, drawn, Some(key));
    KeptIsOk(h, w.core, Draw(h, key), drawn);
    DrawKeepsInv(w.core, i);
    var d := w.core.conns[j].PushEvent(Event(w.core.ports[i].nextSeq, frame));
    SetConnIsQuiet(drawn, j, d);
    QuietKeeps(Draw(h, key), drawn, drawn.(conns := drawn.conns[j := d]), None);
    KeptTransitive(h, w.core, Draw(h, key), drawn, Draw(h, key), drawn.(conns := drawn.conns[j := d]));
  }

  lemma DisconnectIsQuiet(w: World, caller: Caller, serve: nat, connection: nat, reason: u32)
    requires Inv(w.core)
    ensures var after := Disconnect(w, caller, serve, connection, reason).0.core;
            var served := AuthorizeServe(w.core, w.table, caller, serve);
            if served.Success? then
              Quiet(w.core, after, Ending(w.core, after, ServedOpen(w.core, served.value, connection)))
            else after == w.core
  {
    hide Quiet, AuthorizeServe, EndByServer, Inv;
    QuietSelf(w.core);
    var served := AuthorizeServe(w.core, w.table, caller, serve);
    if served.Success? && ServedOpen(w.core, served.value, connection).Success? {
      var j := ServedOpen(w.core, served.value, connection).value;
      EndByServerIsQuiet(w, served.value, j, reason);
      SameSize(w.core, EndByServer(w, served.value, j, reason).core, Some(w.core.conns[j].port));
    }
  }

  lemma BindWakeIsQuiet(w: World, caller: Caller, serve: nat, target: WorkSet, requestBit: nat, noticeBit: nat)
    requires Inv(w.core)
    ensures Quiet(w.core, BindWake(w, caller, serve, target, requestBit, noticeBit).0.core, None)
  {
    hide Quiet, AuthorizeServe, Inv;
    QuietSelf(w.core);
    var served := AuthorizeServe(w.core, w.table, caller, serve);
    var after := BindWake(w, caller, serve, target, requestBit, noticeBit).0.core;
    if served.Success? && after != w.core {
      SetPortIsQuiet(w.core, served.value, after.ports[served.value], None);
    }
  }

  lemma KeptTransitive(h: Hist, a: Core, h1: Hist, b: Core, h2: Hist, c: Core)
    requires Kept(h, a, h1, b) && Kept(h1, b, h2, c)
    ensures Kept(h, a, h2, c)
  {
    hide HistoryOk, Queued, Delivered;
  }

  lemma {:induction false} ExitPortsKeep(h: Hist, w: World, holder: u64, generation: u64, k: nat)
    requires Inv(w.core) && HistoryOk(h, w.core) && k <= |w.core.ports|
    ensures var after := ExitPorts(w, holder, generation, k).core;
            Inv(after) && Kept(h, w.core, h, after)
  {
    hide Inv, HistoryOk, Kept, Teardown, Quiet;
    SameKeeps(h, w.core);
    if k > 0 {
      ExitPortsKeep(h, w, holder, generation, k - 1);
      var w1 := ExitPorts(w, holder, generation, k - 1);
      if ServedBy(w1.core.ports[k - 1], holder, generation) {
        KeptIsOk(h, w.core, h, w1.core);
        TeardownKeepsInv(w1, k - 1);
        TeardownIsQuiet(w1, k - 1);
        QuietKeeps(h, w1.core, Teardown(w1, k - 1).core, None);
        KeptTransitive(h, w.core, h, w1.core, h, Teardown(w1, k - 1).core);
      }
    }
  }

  lemma KeptIsOk(h: Hist, core: Core, h': Hist, after: Core)
    requires Kept(h, core, h', after)
    ensures HistoryOk(h', after)
  {
  }

  lemma ExitConnKeeps(h: Hist, w: World, holder: u64, generation: u64, j: nat)
    requires Inv(w.core) && HistoryOk(h, w.core) && j < |w.core.conns|
    ensures var after := ExitConn(w, holder, generation, j).core;
            Inv(after) && Kept(h, w.core, Noted(h, Ending(w.core, after, Success(j))), after)
  {
    hide Inv, HistoryOk, Kept, Quiet, BeginClose, Noted;
    var after := ExitConn(w, holder, generation, j).core;
    QuietSelf(w.core);
    if ClientOf(w.core.conns[j], holder, generation) {
      if w.core.conns[j].state.Open? {
        BeginCloseKeepsInv(w, j, ClientExited, 0);
        BeginCloseIsQuiet(w, j, ClientExited, 0);
      } else {
        FreeKeepsInv(w.core, j);
        FreeIsQuiet(w, j);
      }
    }
    QuietKeeps(h, w.core, after, Ending(w.core, after, Success(j)));
  }

  lemma {:induction false} ExitConnsKeep(h: Hist, w: World, holder: u64, generation: u64, k: nat)
    requires Inv(w.core) && HistoryOk(h, w.core) && k <= |w.core.conns|
    ensures var after := ExitConns(w, holder, generation, k).core;
            Inv(after) && Kept(h, w.core, ExitDraws(h, w, holder, generation, k), after)
  {
    hide Inv, HistoryOk, Kept, ExitConn, Noted, Ending;
    SameKeeps(h, w.core);
    if k > 0 {
      ExitConnsKeep(h, w, holder, generation, k - 1);
      var w1 := ExitConns(w, holder, generation, k - 1);
      var h1 := ExitDraws(h, w, holder, generation, k - 1);
      KeptIsOk(h, w.core, h1, w1.core);
      ExitConnKeeps(h1, w1, holder, generation, k - 1);
      KeptTransitive(h, w.core, h1, w1.core, ExitDraws(h, w, holder, generation, k),
                     ExitConn(w1, holder, generation, k - 1).core);
    }
  }

  lemma ExitKeeps(h: Hist, w: World, holder: u64, generation: u64)
    requires Inv(w.core) && HistoryOk(h, w.core)
    ensures Kept(h, w.core,
                 ExitDraws(h, ExitPorts(w, holder, generation, |w.core.ports|), holder, generation, |w.core.conns|),
                 OnHolderExit(w, holder, generation).core)
  {
    hide Inv, HistoryOk, Kept, ExitConns, ExitPorts, ExitDraws;
    var w1 := ExitPorts(w, holder, generation, |w.core.ports|);
    ExitPortsKeep(h, w, holder, generation, |w.core.ports|);
    KeptIsOk(h, w.core, h, w1.core);
    ExitConnsKeep(h, w1, holder, generation, |w.core.conns|);
    KeptTransitive(h, w.core, h, w1.core, ExitDraws(h, w1, holder, generation, |w.core.conns|),
                   OnHolderExit(w, holder, generation).core);
  }

  lemma StepKeepsHistory(h: Hist, sys: System, op: SystemOp, t: nat)
    requires Inv(sys.core) && HistoryOk(h, sys.core) && forall m :: m in h.sent ==> m < t
    ensures Kept(h, sys.core, Extend(h, sys, op, t), Step(sys, op).core)
  {
    hide Inv, HistoryOk, Kept, Quiet, ApplyTable, Teardown, Send, RecvEvent, Close, Recv, Post, Disconnect, BindWake,
         OnHolderExit, Register, Connect, Taken, ExitDraws, Noted, Ending, Accept, Draw, Submitted, ExitPorts;
    var w := World(sys.core, sys.table, NO_EFFECTS);
    SameKeeps(h, sys.core);
    var after := Step(sys, op).core;
    match op {
      case TableStep(_) =>
      case RegisterPort(resource, server, generation, params) =>
        RegisterIsQuiet(sys.core, resource, server, generation, params);
        QuietlyKeeps(h, sys.core, after);
      case UnregisterPort(key) =>
        if PortLive(sys.core, key) {
          TeardownIsQuiet(w, key.slot);
          QuietlyKeeps(h, sys.core, after);
        }
      case ConnectTo(caller, handle, c, id) =>
        ConnectIsQuiet(sys.core, sys.table, caller, handle, c, id);
        QuietlyKeeps(h, sys.core, after);
      case SendRequest(caller, connection, frame, transfer) =>
        if Send(w, caller, connection, frame, transfer).1.Success? {
          SendKeeps(h, w, t, caller, connection, frame, transfer);
        } else {
          RefusedIsQuiet(w, caller, connection, frame, transfer);
          QuietKeeps(h, sys.core, after, Ending(sys.core, after, ClientConnection(sys.core, caller, connection)));
        }
      case ReceiveEvent(caller, connection) =>
        RecvEventIsQuiet(w, caller, connection);
        QuietKeeps(h, sys.core, after, Ending(sys.core, after, ClientConnection(sys.core, caller, connection)));
      case CloseConnection(caller, connection, reason) =>
        CloseIsQuiet(w, caller, connection, reason);
        QuietKeeps(h, sys.core, after, Ending(sys.core, after, ClientConnection(sys.core, caller, connection)));
      case ReceiveRequest(caller, serve) => RecvKeeps(h, w, caller, serve);
      case PostEvent(caller, serve, connection, frame) =>
        if Post(w, caller, serve, connection, frame).1.Success? {
          PostKeeps(h, w, caller, serve, connection, frame);
        } else {
          FailedPostChangesNothing(w, caller, serve, connection, frame);
        }
      case DisconnectClient(caller, serve, connection, reason) =>
        DisconnectIsQuiet(w, caller, serve, connection, reason);
        var served := AuthorizeServe(sys.core, sys.table, caller, serve);
        if served.Success? {
          QuietKeeps(h, sys.core, after, Ending(sys.core, after, ServedOpen(sys.core, served.value, connection)));
        }
      case BindWorkSet(caller, serve, target, requestBit, noticeBit) =>
        BindWakeIsQuiet(w, caller, serve, target, requestBit, noticeBit);
        QuietlyKeeps(h, sys.core, after);
      case HolderExit(holder, generation) => ExitKeeps(h, w, holder, generation);
    }
  }

  lemma QuietlyKeeps(h: Hist, core: Core, after: Core)
    requires Inv(core) && HistoryOk(h, core) && Quiet(core, after, None)
    ensures Kept(h, core, h, after)
  {
    hide Inv, HistoryOk, Quiet, Kept;
    QuietKeeps(h, core, after, None);
  }

  lemma FailedPostChangesNothing(w: World, caller: Caller, serve: nat, connection: nat, frame: Frame)
    requires Post(w, caller, serve, connection, frame).1.Failure?
    ensures Post(w, caller, serve, connection, frame).0 == w
  {
    hide AuthorizeServe;
  }

  // ---- every run ----

  /** The history of a whole run that starts in `sys`. */
  function RunHistory(sys: System, ops: seq<SystemOp>): Hist {
    if ops == [] then NO_HISTORY
    else
      var before := ops[..|ops| - 1];
      Extend(RunHistory(sys, before), Run(sys, before), ops[|ops| - 1], |ops| - 1)
  }

  /** Nothing is queued, pending or numbered yet. */
  ghost predicate Starts(sys: System) {
    Inv(sys.core) && HistoryOk(NO_HISTORY, sys.core)
  }

  lemma {:induction false} ExitDrawsOnly(h: Hist, w: World, holder: u64, generation: u64, k: nat)
    requires k <= |w.core.conns|
    ensures ExitDraws(h, w, holder, generation, k).sent == h.sent && ExitDraws(h, w, holder, generation, k).log == h.log
  {
    hide ExitConn;
    if k > 0 { ExitDrawsOnly(h, w, holder, generation, k - 1); }
  }

  /** A step adds a message only if it is an accepted SEND, and then exactly what that submitted. */
  lemma ExtendSends(h: Hist, sys: System, op: SystemOp, t: nat)
    ensures var w := World(sys.core, sys.table, NO_EFFECTS);
            Extend(h, sys, op, t).sent
            == if op.SendRequest? && Send(w, op.caller, op.connection, op.frame, op.transfer).1.Success? then
                 h.sent[t := Submitted(h, w, op.caller, op.connection, op.frame, op.transfer)]
               else h.sent
  {
    hide Step, Send, Submitted, Ending, AuthorizeServe, Post, ExitPorts;
    if op.HolderExit? {
      var w := World(sys.core, sys.table, NO_EFFECTS);
      ExitDrawsOnly(h, ExitPorts(w, op.holder, op.generation, |sys.core.ports|), op.holder, op.generation,
                    |sys.core.conns|);
    }
  }

  lemma {:induction false} MessagesAreSteps(sys: System, ops: seq<SystemOp>)
    ensures forall m :: m in RunHistory(sys, ops).sent ==> m < |ops|
  {
    hide Step, Extend;
    if ops != [] {
      var before := ops[..|ops| - 1];
      MessagesAreSteps(sys, before);
      ExtendSends(RunHistory(sys, before), Run(sys, before), ops[|ops| - 1], |ops| - 1);
    }
  }

  /** Every message of a run is what the accepted SEND at its step submitted. */
  lemma {:induction false} MessageIsItsStep(sys: System, ops: seq<SystemOp>, m: nat)
    requires m in RunHistory(sys, ops).sent
    ensures m < |ops| && ops[m].SendRequest?
    ensures var at := Run(sys, ops[..m]);
            var w := World(at.core, at.table, NO_EFFECTS);
            && Send(w, ops[m].caller, ops[m].connection, ops[m].frame, ops[m].transfer).1.Success?
            && RunHistory(sys, ops).sent[m]
               == Submitted(RunHistory(sys, ops[..m]), w, ops[m].caller, ops[m].connection, ops[m].frame,
                            ops[m].transfer)
    decreases |ops|
  {
    hide Step, Extend, Send, Submitted;
    var before := ops[..|ops| - 1];
    ExtendSends(RunHistory(sys, before), Run(sys, before), ops[|ops| - 1], |ops| - 1);
    if m in RunHistory(sys, before).sent {
      MessageIsItsStep(sys, before, m);
      MessagesAreSteps(sys, before);
      assert before[..m] == ops[..m] && before[m] == ops[m];
    }
  }

  lemma {:induction false} EveryRunKeepsHistory(sys: System, ops: seq<SystemOp>)
    requires Starts(sys)
    ensures Inv(Run(sys, ops).core) && HistoryOk(RunHistory(sys, ops), Run(sys, ops).core)
  {
    hide Step, Extend, Inv, HistoryOk, Kept;
    if ops != [] {
      var before := ops[..|ops| - 1];
      EveryRunKeepsHistory(sys, before);
      MessagesAreSteps(sys, before);
      var h := RunHistory(sys, before);
      StepKeepsInv(Run(sys, before), ops[|ops| - 1]);
      StepKeepsHistory(h, Run(sys, before), ops[|ops| - 1], |ops| - 1);
      KeptIsOk(h, Run(sys, before).core, Extend(h, Run(sys, before), ops[|ops| - 1], |ops| - 1),
               Step(Run(sys, before), ops[|ops| - 1]).core);
    }
  }

  /** Not queued and never delivered, because the connection or the port ended. */
  ghost predicate Purged(h: Hist, core: Core, m: nat) {
    m in h.sent && !Queued(h, core, m) && !Delivered(h, m) && Gone(core, h.sent[m].port, h.sent[m].connection)
  }

  /** Every accepted request is in exactly one of the three states. */
  lemma ExactlyOneFate(sys: System, ops: seq<SystemOp>, m: nat)
    requires Starts(sys) && m in RunHistory(sys, ops).sent
    ensures var h := RunHistory(sys, ops);
            var core := Run(sys, ops).core;
            && (Queued(h, core, m) || Delivered(h, m) || Purged(h, core, m))
            && !(Queued(h, core, m) && Delivered(h, m))
            && !(Queued(h, core, m) && Gone(core, h.sent[m].port, h.sent[m].connection))
  {
    hide Step, Extend, RunHistory, Run;
    EveryRunKeepsHistory(sys, ops);
    OneFate(RunHistory(sys, ops), Run(sys, ops).core, m);
  }

  lemma OneFate(h: Hist, core: Core, m: nat)
    requires Inv(core) && FatesOk(h, core) && m in h.sent
    ensures Queued(h, core, m) || Delivered(h, m) || Purged(h, core, m)
    ensures !(Queued(h, core, m) && Delivered(h, m))
    ensures !(Queued(h, core, m) && Gone(core, h.sent[m].port, h.sent[m].connection))
  {
    assert SentOk(h, core, m);
    if Queued(h, core, m) {
      var i := h.sent[m].port.slot;
      var k :| 0 <= k < PORT_MAX_REQUEST_QUEUE_DEPTH && Filled(core, i, k) && OwnerAt(h, i, k) == m;
      assert EntryOk(h, core, i, k) && PortOk(core, i) && RequestOk(core, i, core.ports[i].requests[k]);
    }
  }

  /**
   What servers received, over a whole run: each request is as it was sent, envelope and frame, and is
   received once. A port that has drawn no number twice delivers its requests in the order they were
   sent, and its notices in the order they arose.
   */
  lemma DeliveryIsFaithfulAndOrdered(sys: System, ops: seq<SystemOp>, a: nat)
    requires Starts(sys) && a < |RunHistory(sys, ops).log|
    ensures var h := RunHistory(sys, ops);
            var r := h.log[a];
            && (r.record.kind.RequestReceived? <==> r.message.Some?)
            && (r.message.Some? ==>
                  && r.message.value in h.sent && h.sent[r.message.value].port == r.port
                  && Faithful(h.sent[r.message.value], r.record.envelope, r.record.frame))
            && (forall b :: 0 <= b < |h.log| && b != a && r.message.Some? ==> h.log[b].message != r.message)
            && (Calm(h, r.port) ==>
                  forall b ::
                    a < b < |h.log| && h.log[b].port == r.port && h.log[b].message.Some? == r.message.Some? ==>
                    if r.message.Some? then r.message.value < h.log[b].message.value
                    else r.record.envelope.kernelSeq < h.log[b].record.envelope.kernelSeq)
  {
    hide Step, Extend, RunHistory, Run;
    EveryRunKeepsHistory(sys, ops);
    LogInOrder(RunHistory(sys, ops), Run(sys, ops).core, a);
  }

  lemma LogInOrder(h: Hist, core: Core, a: nat)
    requires HistoryOk(h, core) && a < |h.log|
    ensures ReceivedOk(h, a)
    ensures forall b :: 0 <= b < |h.log| && b != a && h.log[a].message.Some? ==> h.log[b].message != h.log[a].message
    ensures forall b :: a < b < |h.log| && h.log[b].port == h.log[a].port && Calm(h, h.log[a].port)
                        && h.log[a].message.Some? && h.log[b].message.Some? ==>
              h.log[a].message.value < h.log[b].message.value
    ensures forall b :: a < b < |h.log| && h.log[b].port == h.log[a].port && Calm(h, h.log[a].port)
                        && h.log[a].message.None? && h.log[b].message.None? ==>
              h.log[a].record.envelope.kernelSeq < h.log[b].record.envelope.kernelSeq
  {
    hide SentOk, EntryOk, OwnersDiffer, Faithful, NumberOf;
    forall b | a < b < |h.log| && h.log[b].port == h.log[a].port && Calm(h, h.log[a].port)
               && h.log[a].message.Some? && h.log[b].message.Some?
      ensures h.log[a].message.value < h.log[b].message.value
    {
      assert ReceivedOk(h, a) && ReceivedOk(h, b);
      assert DrawOf(h, h.log[a].message.value) < DrawOf(h, h.log[b].message.value);
    }
  }

  /** A request purged at some point of a run is never delivered later in it. */
  lemma {:induction false} PurgedIsFinal(sys: System, ops: seq<SystemOp>, n: nat, m: nat)
    requires Starts(sys) && n <= |ops|
    requires Purged(RunHistory(sys, ops[..n]), Run(sys, ops[..n]).core, m)
    ensures m in RunHistory(sys, ops).sent && !Queued(RunHistory(sys, ops), Run(sys, ops).core, m)
    ensures !Delivered(RunHistory(sys, ops), m)
    decreases |ops|
  {
    hide Step, Extend, Inv, HistoryOk, Queued, Delivered;
    if n == |ops| {
      assert ops[..n] == ops;
    } else {
      var before := ops[..|ops| - 1];
      assert before[..n] == ops[..n];
      PurgedIsFinal(sys, before, n, m);
      EveryRunKeepsHistory(sys, before);
      MessagesAreSteps(sys, before);
      StepKeepsHistory(RunHistory(sys, before), Run(sys, before), ops[|ops| - 1], |ops| - 1);
    }
  }

  /** A notice is received only while it is the oldest; a request only when no notice is pending. */
  lemma NoticesComeFirst(h: Hist, w: World, caller: Caller, serve: nat)
    requires Inv(w.core) && NoticesOk(h, w.core) && Recv(w, caller, serve).1.Success?
    ensures var i := AuthorizeServe(w.core, w.table, caller, serve).value;
            var key := Key(w.core, i);
            var r := Recv(w, caller, serve).1.value;
            forall j: nat :: Pending(w.core, j) && w.core.conns[j].port == key ==>
              && !r.kind.RequestReceived?
              && (r.envelope.connection == ConnId(w.core, j) || r.envelope.kernelSeq <= w.core.conns[j].closeSeq)
              && (r.envelope.connection == ConnId(w.core, j)
                  || (Calm(h, key) ==> r.envelope.kernelSeq < w.core.conns[j].closeSeq))
  {
    hide AuthorizeServe, Dequeue, NoticesOk;
    var i := AuthorizeServe(w.core, w.table, caller, serve).value;
    var key := Key(w.core, i);
    var notice := FindLeast(w.core.conns, NoticeFor(key), CLOSE_SEQ);
    if notice.Some? {
      assert ConnOk(w.core, notice.value);
      forall j: nat | Pending(w.core, j) && w.core.conns[j].port == key && j != notice.value
        ensures w.core.conns[notice.value].closeSeq <= w.core.conns[j].closeSeq
        ensures Calm(h, key) ==> w.core.conns[notice.value].closeSeq < w.core.conns[j].closeSeq
      {
        OldestNoticeIsFirst(h, w.core, i, notice.value, j);
      }
    } else {
      forall j: nat | j < |w.core.conns| ensures !(Pending(w.core, j) && w.core.conns[j].port == key) {
        assert !NoticeFor(key)(w.core.conns[j]);
      }
    }
  }

  lemma BootStarts(slots: nat, ports: nat, conns: nat)
    requires slots <= MAX_SLOT_COUNT
    ensures Starts(Boot(slots, ports, conns))
  {
    var core := Boot(slots, ports, conns).core;
    BootOk(slots, ports, conns);
    forall i | 0 <= i < |core.ports| ensures core.ports[i] == EmptyPort() { }
    forall j | 0 <= j < |core.conns| ensures core.conns[j] == EmptyConnection() { }
  }
}
