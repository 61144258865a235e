/** What every run promises about the order of requests and about the capabilities they carry. */
module KernelTheorems {
  import opened Wrappers
  import opened Capability
  import opened SlotOps
  import opened Aging
  import opened PortTypes
  import opened PortSteps
  import opened PortTransfers
  import opened PortHistory
  import opened PortTheorems
  import opened Kernel
  import opened KernelRuns
  import opened KernelHistory

  // ---- order ----

  /**
   Of two requests queued at the same port in any run, the one sent first is received first exactly
   when its draw is smaller modulo the counter's period, or equal and in a lower entry. While the
   port has drawn no number twice it always is.
   */
  lemma FirstSentIsFirstReceivedIff(sys: System, ops: seq<SystemOp>, i: nat, k: nat, l: nat)
    requires Starts(sys) && Filled(Run(sys, ops).core, i, k) && Filled(Run(sys, ops).core, i, l)
    requires OwnerAt(RunHistory(sys, ops), i, k) < OwnerAt(RunHistory(sys, ops), i, l)
    ensures var h := RunHistory(sys, ops);
            var core := Run(sys, ops).core;
            var a, b := DrawOf(h, OwnerAt(h, i, k)), DrawOf(h, OwnerAt(h, i, l));
            && a < b < Drawn(h, Key(core, i))
            && (Precedes(Drain(core.ports[i].requests), k, l)
                <==> a % U64_MAX < b % U64_MAX || (a % U64_MAX == b % U64_MAX && k < l))
            && (Calm(h, Key(core, i)) ==> Precedes(Drain(core.ports[i].requests), k, l))
  {
    hide Step, Extend, RunHistory, Run, Precedes, Drain;
    EveryRunKeepsHistory(sys, ops);
    QueuedOrder(RunHistory(sys, ops), Run(sys, ops).core, i, k, l);
  }

  lemma QueuedOrder(h: Hist, core: Core, i: nat, k: nat, l: nat)
    requires FatesOk(h, core) && ClockOk(h, core) && Filled(core, i, k) && Filled(core, i, l)
    requires OwnerAt(h, i, k) < OwnerAt(h, i, l)
    ensures var a, b := DrawOf(h, OwnerAt(h, i, k)), DrawOf(h, OwnerAt(h, i, l));
            && a < b < Drawn(h, Key(core, i))
            && (Precedes(Drain(core.ports[i].requests), k, l)
                <==> a % U64_MAX < b % U64_MAX || (a % U64_MAX == b % U64_MAX && k < l))
            && (Calm(h, Key(core, i)) ==> Precedes(Drain(core.ports[i].requests), k, l))
  {
    hide Precedes, Drain, Queued, Delivered, Gone;
    assert EntryOk(h, core, i, k) && EntryOk(h, core, i, l);
    var m, n := OwnerAt(h, i, k), OwnerAt(h, i, l);
    assert SentOk(h, core, m) && SentOk(h, core, n);
    DrainIsByNumber(core.ports[i].requests, k, l);
    NumberFollows(h.sent[m].draw);
    NumberFollows(h.sent[n].draw);
  }

  // ---- transferred capabilities ----

  /** What the SEND at step `m` handed over: the handle it issued, for a read-only child of the sender's. */
  ghost predicate HandsOver(sys: System, ops: seq<SystemOp>, m: nat, cap: TransferredCap, server: u64) {
    && m < |ops| && ops[m].SendRequest? && ops[m].transfer.Some?
    && DecodeId(cap.handle).Some? && Handles(sys, ops)[m] == DecodeId(cap.handle)
    && var before, after, h := Tables(sys, ops)[m], Tables(sys, ops)[m + 1], DecodeId(cap.handle).value;
    && Issues(before, after, h) && h.slot < |after| && ops[m].transfer.value.handle.slot < |before|
    && after[h.slot] == HandedOver(before, ops[m].transfer.value, server, h.generation)
  }

  /** The child that an accepted SEND submits is the one it installs. */
  lemma StepHandsOver(history: Hist, at: System, op: SystemOp)
    requires Coupled(at) && op.SendRequest? && op.transfer.Some?
    requires Send(World(at.core, at.table, NO_EFFECTS), op.caller, op.connection, op.frame, op.transfer).1.Success?
    ensures var s := Submitted(history, World(at.core, at.table, NO_EFFECTS), op.caller, op.connection, op.frame,
                               op.transfer);
            && s.transfer.Some? && s.port.slot < |at.core.ports|
            && DecodeId(s.transfer.value.handle).Some? && HandleIssued(at, op) == DecodeId(s.transfer.value.handle)
            && var after, h := Step(at, op).table, DecodeId(s.transfer.value.handle).value;
            && Issues(at.table, after, h) && h.slot < |after| && op.transfer.value.handle.slot < |at.table|
            && after[h.slot] == HandedOver(at.table, op.transfer.value, at.core.ports[s.port.slot].server, h.generation)
  {
    hide Send, HandedOver, Coupled, ChildSent, ReauthorizeClient, AuthorizeAt;
    var w := World(at.core, at.table, NO_EFFECTS);
    AcceptedSend(w, op.caller, op.connection, op.frame, op.transfer);
    CoupledFits(at);
    SendIssues(w, op.caller, op.connection, op.frame, op.transfer.value);
  }

  lemma SubmitsChildIff(history: Hist, w: World, op: SystemOp)
    requires op.SendRequest? && Send(w, op.caller, op.connection, op.frame, op.transfer).1.Success?
    ensures Submitted(history, w, op.caller, op.connection, op.frame, op.transfer).transfer.Some? <==> op.transfer.Some?
  {
    hide Send, ReauthorizeClient, ChildSent;
    AcceptedSend(w, op.caller, op.connection, op.frame, op.transfer);
  }

  /** Every child that a message carries is the one its own SEND installed. */
  lemma SentChildIsIssued(sys: System, ops: seq<SystemOp>, m: nat)
    requires Coupled(sys) && m in RunHistory(sys, ops).sent && RunHistory(sys, ops).sent[m].transfer.Some?
    ensures m < |ops| && RunHistory(sys, ops).sent[m].port.slot < |Run(sys, ops[..m]).core.ports|
    ensures HandsOver(sys, ops, m, RunHistory(sys, ops).sent[m].transfer.value,
                      Run(sys, ops[..m]).core.ports[RunHistory(sys, ops).sent[m].port.slot].server)
  {
    hide Send, HandedOver, Coupled, Issues, RunHistory, Extend, Tables, Handles, Run, Step, Submitted, HandleIssued;
    MessageIsItsStep(sys, ops, m);
    EveryRunIsCoupled(sys, ops[..m]);
    var at := Run(sys, ops[..m]);
    SubmitsChildIff(RunHistory(sys, ops[..m]), World(at.core, at.table, NO_EFFECTS), ops[m]);
    StepHandsOver(RunHistory(sys, ops[..m]), at, ops[m]);
    RunStep(sys, ops, m);
  }

  lemma CoupledFits(sys: System)
    requires Coupled(sys)
    ensures |sys.table| <= MAX_SLOT_COUNT
  {
  }

  lemma RunStep(sys: System, ops: seq<SystemOp>, m: nat)
    requires m < |ops|
    ensures Tables(sys, ops)[m] == Run(sys, ops[..m]).table
    ensures Tables(sys, ops)[m + 1] == Step(Run(sys, ops[..m]), ops[m]).table
    ensures Handles(sys, ops)[m] == HandleIssued(Run(sys, ops[..m]), ops[m])
  {
    hide Step, HandleIssued;
    assert ops[..m + 1][..m] == ops[..m];
  }

  /** No two messages of a run carry the same child, whatever became of them. */
  lemma SentChildrenDiffer(sys: System, ops: seq<SystemOp>, m: nat, n: nat)
    requires Coupled(sys) && m < n
    requires m in RunHistory(sys, ops).sent && RunHistory(sys, ops).sent[m].transfer.Some?
    requires n in RunHistory(sys, ops).sent && RunHistory(sys, ops).sent[n].transfer.Some?
    ensures RunHistory(sys, ops).sent[m].transfer.value.handle != RunHistory(sys, ops).sent[n].transfer.value.handle
  {
    hide Coupled, Issues, RunHistory, Tables, Handles, Run, HandedOver;
    SentChildIsIssued(sys, ops, m);
    SentChildIsIssued(sys, ops, n);
    HandlesAreUnique(sys, ops, m, n);
  }

  /** While the handle resolves in `now`, its slot holds the capability that it named in `then_`. */
  predicate StillOwn(then_: Slots, now: Slots, cap: TransferredCap) {
    DecodeId(cap.handle).Some? &&
    var h := DecodeId(cap.handle).value;
    && h.slot < |now| == |then_|
    && (Resolves(now, h) ==> SameCapability(then_[h.slot], now[h.slot]))
  }

  /** Releasing the child spends its handle and changes no slot but one that holds that capability. */
  predicate ReleasesOnly(then_: Slots, now: Slots, effects: EffectList, cap: TransferredCap) {
    DecodeId(cap.handle).Some? &&
    var h := DecodeId(cap.handle).value;
    var released := ReleaseChild(now, effects, cap).0;
    && |released| == |now| == |then_| && !Resolves(released, h)
    && forall x :: 0 <= x < |now| && released[x] != now[x] ==> x == h.slot && SameCapability(then_[x], now[x])
  }

  /**
   The child of a queued request is the one its SEND installed: while its handle resolves, the slot
   holds that same capability, so releasing the child never touches a later occupant of the slot.
   */
  lemma QueuedChildIsItsOwn(sys: System, ops: seq<SystemOp>, i: nat, k: nat, effects: EffectList)
    requires Starts(sys) && Coupled(sys) && Filled(Run(sys, ops).core, i, k)
    requires Run(sys, ops).core.ports[i].requests[k].transfer.Some?
    ensures var m := OwnerAt(RunHistory(sys, ops), i, k);
            var cap := Run(sys, ops).core.ports[i].requests[k].transfer.value;
            && m < |ops| && i < |Run(sys, ops[..m]).core.ports|
            && HandsOver(sys, ops, m, cap, Run(sys, ops[..m]).core.ports[i].server)
            && StillOwn(Tables(sys, ops)[m + 1], Run(sys, ops).table, cap)
            && ReleasesOnly(Tables(sys, ops)[m + 1], Run(sys, ops).table, effects, cap)
  {
    hide Step, Extend, RunHistory, Run, Tables, Handles, Coupled, HandsOver, ReleaseChild, SameCapability;
    var history, core, now := RunHistory(sys, ops), Run(sys, ops).core, Run(sys, ops).table;
    EveryRunKeepsHistory(sys, ops);
    assert EntryOk(history, core, i, k);
    var m := OwnerAt(history, i, k);
    var cap := core.ports[i].requests[k].transfer.value;
    SentChildIsIssued(sys, ops, m);
    EveryRunIsCoupled(sys, ops);
    QueuedChildOk(Run(sys, ops), i, k);
    ReleaseChildAges(now, effects, cap);
    IssuedStaysSame(sys, ops, m, cap, Run(sys, ops[..m]).core.ports[i].server);
  }

  lemma QueuedChildOk(sys: System, i: nat, k: nat)
    requires Coupled(sys) && Filled(sys.core, i, k) && sys.core.ports[i].requests[k].transfer.Some?
    ensures ChildOk(sys.table, sys.core.ports[i].requests[k].transfer.value)
  {
    assert PoolOk(sys.table, sys.core.ports[i].requests) && CARRIES(sys.core.ports[i].requests[k]);
  }

  lemma IssuedStaysSame(sys: System, ops: seq<SystemOp>, m: nat, cap: TransferredCap, server: u64)
    requires Coupled(sys) && HandsOver(sys, ops, m, cap, server)
    ensures m < |ops| && StillOwn(Tables(sys, ops)[m + 1], Run(sys, ops).table, cap)
  {
    hide Step, Run, Coupled, HandedOver, HandleIssued;
    var tables, h := Tables(sys, ops), DecodeId(cap.handle).value;
    SystemRunAges(sys, ops);
    RunAges(tables, Handles(sys, ops), m + 1, |ops|);
    assert ops[..|ops|] == ops && tables[|ops|] == Run(sys, ops).table;
    if Resolves(Run(sys, ops).table, h) { ResolvesToSame(tables[m + 1], tables[|ops|], h); }
  }
}
