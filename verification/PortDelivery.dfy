/** Each engine operation keeps the history: accepted requests are queued, delivered once, or purged. */
module PortDelivery {
  import opened Wrappers
  import opened Capability
  import opened Counting
  import opened PortTypes
  import opened PortSteps
  import opened PortInvariant
  import opened PortHistory

  /** A change confined to one port, which stays as live as it was, and one connection. */
  lemma QuietOne(core: Core, after: Core, i: nat, j: nat, drawn: Option<PortKey>)
    requires Inv(core) && i < |core.ports| && j < |core.conns| && |after.ports| == |core.ports|
    requires |after.conns| == |core.conns|
    requires after.ports == core.ports[i := after.ports[i]] && after.conns == core.conns[j := after.conns[j]]
    requires drawn.None? || (drawn == Some(Key(core, i)) && core.ports[i].live)
    requires QuietPort(core, after, i, drawn) && QuietConn(core, after, j, drawn)
    requires core.ports[i].live ==> after.ports[i].live && after.ports[i].generation == core.ports[i].generation
    ensures Quiet(core, after, drawn)
  {
    forall x | 0 <= x < |core.conns| ensures QuietConn(core, after, x, drawn) { assert ConnOk(core, x); }
    forall x | 0 <= x < |core.ports| ensures QuietPort(core, after, x, drawn) { assert PortOk(core, x); }
  }

  /** Ending an Open connection purges its requests and numbers the end. */
  lemma EndIsQuiet(core: Core, i: nat, j: nat, q: Port, d: Connection)
    requires Inv(core) && i < |core.ports| && j < |core.conns|
    requires core.ports[i].live && core.conns[j].state.Open? && core.conns[j].port == Key(core, i)
    requires q == core.ports[i].(requests := Cleared(core.ports[i].requests, OfConn(ConnId(core, j))),
                                 transfersInFlight := q.transfersInFlight, nextSeq := NextSeq(core.ports[i].nextSeq))
    requires d.generation == core.conns[j].generation && !d.state.Open? && d.port == core.conns[j].port
    requires d.closeSeq == core.ports[i].nextSeq
    ensures Quiet(core, Core(core.ports[i := q], core.conns[j := d]), Some(Key(core, i)))
  {
    var after := Core(core.ports[i := q], core.conns[j := d]);
    assert PortOk(core, i) && ConnOk(core, j);
    QuietOne(core, after, i, j, Some(Key(core, i)));
  }

  lemma BeginCloseIsQuiet(w: World, j: nat, kind: RecvKind, reason: u32)
    requires Inv(w.core) && j < |w.core.conns| && w.core.conns[j].state.Open?
    ensures Quiet(w.core, BeginClose(w, j, kind, reason).core, Some(w.core.conns[j].port))
    ensures BeginClose(w, j, kind, reason).core.conns[j].state.ClosePending?
  {
    assert ConnOk(w.core, j);
    var i := w.core.conns[j].port.slot;
    var after := BeginClose(w, j, kind, reason).core;
    EndIsQuiet(w.core, i, j, after.ports[i], after.conns[j]);
    assert after == Core(w.core.ports[i := after.ports[i]], w.core.conns[j := after.conns[j]]);
  }

  lemma EndByServerIsQuiet(w: World, i: nat, j: nat, reason: u32)
    requires Inv(w.core) && i < |w.core.ports| && j < |w.core.conns|
    requires w.core.ports[i].live && w.core.conns[j].state.Open? && w.core.conns[j].port == Key(w.core, i)
    ensures Quiet(w.core, EndByServer(w, i, j, reason).core, Some(w.core.conns[j].port))
    ensures EndByServer(w, i, j, reason).core.conns[j].state.ServerClosed?
  {
    var after := EndByServer(w, i, j, reason).core;
    EndIsQuiet(w.core, i, j, after.ports[i], after.conns[j]);
    assert after == Core(w.core.ports[i := after.ports[i]], w.core.conns[j := after.conns[j]]);
  }

  /** Replacing a connection by one that is neither newly Open nor a new notice. */
  lemma SetConnIsQuiet(core: Core, j: nat, d: Connection)
    requires Inv(core) && j < |core.conns| && 0 < |core.ports| && core.conns[j].generation <= d.generation
    requires d.state.Open? ==> core.conns[j].state.Open? || core.conns[j].generation < d.generation
    requires !d.state.ClosePending?
    ensures Quiet(core, core.(conns := core.conns[j := d]), None)
  {
    var after := core.(conns := core.conns[j := d]);
    assert PortOk(core, 0);
    QuietOne(core, after, 0, j, None);
  }

  lemma SetPortIsQuiet(core: Core, i: nat, q: Port, drawn: Option<PortKey>)
    requires Inv(core) && i < |core.ports| && SameQueue(core.ports[i], q) && core.ports[i].live
    requires drawn.None? || drawn == Some(Key(core, i))
    requires q.nextSeq == if drawn.Some? then NextSeq(core.ports[i].nextSeq) else core.ports[i].nextSeq
    ensures Quiet(core, core.(ports := core.ports[i := q]), drawn)
  {
    var after := core.(ports := core.ports[i := q]);
    forall x | 0 <= x < |core.conns| ensures QuietConn(core, after, x, drawn) { assert ConnOk(core, x); }
    forall x | 0 <= x < |core.ports| ensures QuietPort(core, after, x, drawn) { assert PortOk(core, x); }
  }

  lemma TeardownIsQuiet(w: World, i: nat)
    requires Inv(w.core) && i < |w.core.ports| && w.core.ports[i].live
    ensures Quiet(w.core, Teardown(w, i).core, None)
  {
    hide Teardown;
    var core := w.core;
    var after := Teardown(w, i).core;
    TeardownShape(w, i);
    forall x | 0 <= x < |core.ports| ensures QuietPort(core, after, x, None) { assert PortOk(core, x); }
    forall j | 0 <= j < |core.conns|
      ensures QuietConn(core, after, j, None)
      ensures after.conns[j].state.ClosePending? ==> SameNotice(core.conns[j], after.conns[j])
    {
      assert ConnOk(core, j);
      assert after.conns[j] == Ended(core.conns[j], Key(core, i), after.conns[j].closeSeq);
    }
  }

  lemma RegisterIsQuiet(core: Core, resource: ResourceRef, server: u64, serverGeneration: u64, params: PortParams)
    requires Inv(core)
    ensures Quiet(core, Register(core, resource, server, serverGeneration, params).0, None)
  {
    var after := Register(core, resource, server, serverGeneration, params).0;
    forall x | 0 <= x < |core.ports| ensures QuietPort(core, after, x, None) { assert PortOk(core, x); }
    forall j | 0 <= j < |core.conns|
      ensures QuietConn(core, after, j, None)
      ensures after.conns[j].state.ClosePending? ==> SameNotice(core.conns[j], after.conns[j])
    {
      assert ConnOk(core, j);
    }
  }

  // ---- accepting and delivering: one entry of one pool ----

  /** Connections differ at most in counters and events. */
  predicate SameConns(core: Core, after: Core) {
    && |after.conns| == |core.conns|
    && forall x :: 0 <= x < |core.conns| ==>
         && after.conns[x].generation == core.conns[x].generation && after.conns[x].state == core.conns[x].state
         && after.conns[x].port == core.conns[x].port && after.conns[x].closeSeq == core.conns[x].closeSeq
  }

  /** Port `i` has `r` in entry `k` and `next` in its counter; nothing else is queued anew. */
  predicate EntrySet(core: Core, after: Core, i: nat, k: nat, r: Request, next: u64)
    requires i < |core.ports| && k < PORT_MAX_REQUEST_QUEUE_DEPTH
  {
    && SameConns(core, after) && |after.ports| == |core.ports|
    && (forall x :: 0 <= x < |core.ports| && x != i ==> after.ports[x] == core.ports[x])
    && core.ports[i].live && after.ports[i].live && after.ports[i].generation == core.ports[i].generation
    && after.ports[i].nextSeq == next
    && (forall l :: 0 <= l < PORT_MAX_REQUEST_QUEUE_DEPTH ==>
          after.ports[i].requests[l] == if l == k then r else core.ports[i].requests[l])
  }

  lemma EntryKeepsGone(core: Core, after: Core, i: nat, k: nat, r: Request, next: u64, key: PortKey, id: SlotId)
    requires i < |core.ports| && k < PORT_MAX_REQUEST_QUEUE_DEPTH && EntrySet(core, after, i, k, r, next)
    ensures Gone(after, key, id) == Gone(core, key, id) && PortLive(after, key) == PortLive(core, key)
  {
  }

  lemma EntryKeepsLive(core: Core, after: Core, i: nat, k: nat, r: Request, next: u64, x: nat, l: nat)
    requires i < |core.ports| && k < PORT_MAX_REQUEST_QUEUE_DEPTH && EntrySet(core, after, i, k, r, next)
    ensures Filled(after, x, l) == if x == i && l == k then r.IsLive() else Filled(core, x, l)
    ensures Filled(after, x, l) ==>
              after.ports[x].requests[l] == if x == i && l == k then r else core.ports[x].requests[l]
    ensures x < |core.ports| ==> Key(after, x) == Key(core, x)
  {
  }

  lemma EntryKeepsSlots(core: Core, after: Core, i: nat, k: nat, r: Request, next: u64)
    requires i < |core.ports| && k < PORT_MAX_REQUEST_QUEUE_DEPTH && EntrySet(core, after, i, k, r, next)
    ensures |after.conns| == |core.conns|
    ensures forall x :: 0 <= x < |core.conns| ==> after.conns[x].generation == core.conns[x].generation
  {
  }

  lemma EntryKeepsCounters(core: Core, after: Core, i: nat, k: nat, r: Request, next: u64)
    requires i < |core.ports| && k < PORT_MAX_REQUEST_QUEUE_DEPTH && EntrySet(core, after, i, k, r, next)
    ensures |after.ports| == |core.ports| && after.ports[i].nextSeq == next && core.ports[i].live
    ensures forall x :: 0 <= x < |core.ports| ==>
              after.ports[x].live == core.ports[x].live && after.ports[x].generation == core.ports[x].generation
    ensures forall x :: 0 <= x < |core.ports| && x != i ==> after.ports[x].nextSeq == core.ports[x].nextSeq
  {
  }

  lemma EntryKeepsPending(core: Core, after: Core, i: nat, k: nat, r: Request, next: u64, j: nat)
    requires i < |core.ports| && k < PORT_MAX_REQUEST_QUEUE_DEPTH && EntrySet(core, after, i, k, r, next)
    ensures Pending(after, j) == Pending(core, j)
    ensures Pending(after, j) ==> SameNotice(core.conns[j], after.conns[j])
  {
  }

  // ---- accepting ----

  /** The history after step `t` queued `s` in entry `k` of its port. */
  function Accept(h: Hist, t: nat, k: nat, s: Sent): Hist {
    Draw(h, s.port).(sent := h.sent[t := s], owner := h.owner[(s.port.slot, k) := t])
  }

  /** Request `r`, as sent, is put in the free entry `k` of port `i` and takes the next number. */
  ghost predicate Accepts(h: Hist, core: Core, after: Core, t: nat, i: nat, k: nat, r: Request, s: Sent) {
    && i < |core.ports| && k < PORT_MAX_REQUEST_QUEUE_DEPTH && !core.ports[i].requests[k].IsLive() && r.IsLive()
    && EntrySet(core, after, i, k, r, NextSeq(core.ports[i].nextSeq))
    && s.port == Key(core, i) && s.draw == Drawn(h, s.port) && Faithful(s, r.ToEnvelope(), r.frame)
    && s.connection.slot < |core.conns| && s.connection.generation <= core.conns[s.connection.slot].generation
    && (forall m :: m in h.sent ==> m < t)
  }

  lemma AcceptKeepsQueued(h: Hist, core: Core, after: Core, t: nat, i: nat, k: nat, r: Request, s: Sent, m: nat)
    requires Accepts(h, core, after, t, i, k, r, s) && m in h.sent
    ensures Queued(Accept(h, t, k, s), after, m) == Queued(h, core, m)
  {
    hide EntrySet, Faithful, NumberOf;
    var g := Accept(h, t, k, s);
    var next := NextSeq(core.ports[i].nextSeq);
    var x := h.sent[m].port.slot;
    EntryKeepsGone(core, after, i, k, r, next, h.sent[m].port, s.connection);
    if Queued(h, core, m) {
      var l :| 0 <= l < PORT_MAX_REQUEST_QUEUE_DEPTH && Filled(core, x, l) && OwnerAt(h, x, l) == m;
      EntryKeepsLive(core, after, i, k, r, next, x, l);
      assert OwnerAt(g, x, l) == m && Filled(after, x, l);
    }
    if Queued(g, after, m) {
      var l :| 0 <= l < PORT_MAX_REQUEST_QUEUE_DEPTH && Filled(after, x, l) && OwnerAt(g, x, l) == m;
      EntryKeepsLive(core, after, i, k, r, next, x, l);
      assert OwnerAt(h, x, l) == m && Filled(core, x, l);
    }
  }

  lemma AcceptIsQueued(h: Hist, core: Core, after: Core, t: nat, i: nat, k: nat, r: Request, s: Sent)
    requires Accepts(h, core, after, t, i, k, r, s)
    ensures Queued(Accept(h, t, k, s), after, t)
  {
    assert Filled(after, i, k) && OwnerAt(Accept(h, t, k, s), i, k) == t;
  }

  lemma AcceptKeepsEntries(h: Hist, core: Core, after: Core, t: nat, i: nat, k: nat, r: Request, s: Sent)
    requires FatesOk(h, core) && Accepts(h, core, after, t, i, k, r, s)
    ensures var g := Accept(h, t, k, s);
            OwnersDiffer(g, after) && forall x: nat, l: nat :: Filled(after, x, l) ==> EntryOk(g, after, x, l)
  {
    hide SentOk, Faithful;
    var g := Accept(h, t, k, s);
    var next := NextSeq(core.ports[i].nextSeq);
    assert !Delivered(h, t) by {
      forall a | 0 <= a < |h.log| ensures h.log[a].message != Some(t) { assert ReceivedOk(h, a); }
    }
    assert forall m :: Delivered(g, m) == Delivered(h, m);
    forall x: nat, l: nat | Filled(after, x, l)
      ensures EntryOk(g, after, x, l) && (OwnerAt(g, x, l) == t <==> x == i && l == k)
      ensures x != i || l != k ==> Filled(core, x, l) && OwnerAt(g, x, l) == OwnerAt(h, x, l)
    {
      EntryKeepsLive(core, after, i, k, r, next, x, l);
      if x != i || l != k { assert EntryOk(h, core, x, l); }
    }
  }

  lemma AcceptKeepsFates(h: Hist, core: Core, after: Core, t: nat, i: nat, k: nat, r: Request, s: Sent)
    requires FatesOk(h, core) && Accepts(h, core, after, t, i, k, r, s)
    ensures FatesOk(Accept(h, t, k, s), after)
  {
    hide Queued, Faithful, EntrySet, OwnersDiffer, EntryOk;
    var g := Accept(h, t, k, s);
    var next := NextSeq(core.ports[i].nextSeq);
    EntryKeepsCounters(core, after, i, k, r, next);
    EntryKeepsSlots(core, after, i, k, r, next);
    AcceptKeepsEntries(h, core, after, t, i, k, r, s);
    AcceptIsQueued(h, core, after, t, i, k, r, s);
    assert forall m :: Delivered(g, m) == Delivered(h, m);
    forall m | m in g.sent ensures SentOk(g, after, m) {
      if m != t {
        assert SentOk(h, core, m);
        AcceptKeepsQueued(h, core, after, t, i, k, r, s, m);
        EntryKeepsGone(core, after, i, k, r, next, h.sent[m].port, h.sent[m].connection);
      }
    }
    forall a | 0 <= a < |g.log| ensures ReceivedOk(g, a) { assert ReceivedOk(h, a); }
  }

  lemma AcceptKeepsClock(h: Hist, core: Core, after: Core, t: nat, i: nat, k: nat, r: Request, s: Sent)
    requires FatesOk(h, core) && ClockOk(h, core) && Accepts(h, core, after, t, i, k, r, s)
    ensures ClockOk(Accept(h, t, k, s), after)
  {
    hide NumberOf, Queued, Delivered, Gone, Faithful, EntrySet, EntryOk, OwnersDiffer, Once, ReceivedOk;
    NumberFollows(Drawn(h, s.port));
    EntryKeepsCounters(core, after, i, k, r, NextSeq(core.ports[i].nextSeq));
    forall m | m in h.sent ensures h.sent[m].draw < Drawn(h, h.sent[m].port) { assert SentOk(h, core, m); }
  }

  lemma AcceptKeepsOrder(h: Hist, core: Core, after: Core, t: nat, i: nat, k: nat, r: Request, s: Sent)
    requires FatesOk(h, core) && OrderOk(h, core) && Accepts(h, core, after, t, i, k, r, s)
    ensures OrderOk(Accept(h, t, k, s), after)
  {
    hide NumberOf, Queued, Gone, Faithful, EntrySet, OwnersDiffer, Once;
    var g := Accept(h, t, k, s);
    assert forall key :: Calm(g, key) ==> Calm(h, key);
    forall a | 0 <= a < |g.log| && g.log[a].message.Some?
      ensures DrawOf(g, g.log[a].message.value) == DrawOf(h, h.log[a].message.value) < Drawn(h, g.log[a].port)
    {
      assert ReceivedOk(h, a) && SentOk(h, core, h.log[a].message.value);
    }
    forall a | 0 <= a < |g.log| ensures Ahead(g, after, a) {
      assert Ahead(h, core, a);
      EntryKeepsGone(core, after, i, k, r, NextSeq(core.ports[i].nextSeq), g.log[a].port, s.connection);
      forall l | 0 <= l < PORT_MAX_REQUEST_QUEUE_DEPTH && Filled(after, g.log[a].port.slot, l)
             && PortLive(after, g.log[a].port)
                 && Calm(g, g.log[a].port) && g.log[a].message.Some?
        ensures DrawOf(g, g.log[a].message.value) < DrawOf(g, OwnerAt(g, g.log[a].port.slot, l))
      {
        EntryKeepsLive(core, after, i, k, r, NextSeq(core.ports[i].nextSeq), g.log[a].port.slot, l);
        if g.log[a].port.slot != i || l != k { assert EntryOk(h, core, g.log[a].port.slot, l); }
      }
    }
  }

  /** Notices are untouched by a change to one entry that logs nothing. */
  lemma EntryKeepsNotices(h: Hist, g: Hist, core: Core, after: Core, i: nat, k: nat, r: Request, next: u64)
    requires i < |core.ports| && k < PORT_MAX_REQUEST_QUEUE_DEPTH && EntrySet(core, after, i, k, r, next)
    requires NoticesOk(h, core) && g.log == h.log && forall key :: Drawn(h, key) <= Drawn(g, key)
    ensures NoticesOk(g, after)
  {
    forall j: nat | Pending(after, j) ensures Pending(core, j) && NoticeOk(g, after, j) {
      EntryKeepsPending(core, after, i, k, r, next, j);
      assert NoticeOk(h, core, j);
    }
    forall a | 0 <= a < |g.log| ensures NoticeAhead(g, after, a) { assert NoticeAhead(h, core, a); }
  }

  lemma AcceptKeepsHistory(h: Hist, core: Core, after: Core, t: nat, i: nat, k: nat, r: Request, s: Sent)
    requires HistoryOk(h, core) && Accepts(h, core, after, t, i, k, r, s)
    ensures HistoryOk(Accept(h, t, k, s), after)
  {
    hide FatesOk, ClockOk, OrderOk, NoticesOk, Faithful;
    AcceptKeepsFates(h, core, after, t, i, k, r, s);
    AcceptKeepsClock(h, core, after, t, i, k, r, s);
    AcceptKeepsOrder(h, core, after, t, i, k, r, s);
    EntryKeepsNotices(h, Accept(h, t, k, s), core, after, i, k, r, NextSeq(core.ports[i].nextSeq));
  }

  /** What an enqueue at port `i` adds to the history. */
  function Enqueued(h: Hist, core: Core, j: nat, i: nat, caller: Caller, rights: Rights, frame: Frame,
                    child: Option<TransferredCap>): Sent
    requires j < |core.conns| && i < |core.ports|
  {
    Sent(Key(core, i), ConnId(core, j), caller, frame, rights, child, Drawn(h, Key(core, i)))
  }

  lemma EnqueueAccepts(h: Hist, w: World, t: nat, j: nat, i: nat, caller: Caller, rights: Rights, frame: Frame,
                       child: Option<TransferredCap>)
    returns (k: nat, r: Request)
    requires ClockOk(h, w.core) && i < |w.core.ports| && j < |w.core.conns| && forall m :: m in h.sent ==> m < t
    requires w.core.ports[i].live && HasRoom(w.core, j, i, child.Some?)
    ensures k == FindFirst(w.core.ports[i].requests, FREE_ENTRY)
    ensures var after := Enqueue(w, j, i, caller, rights, frame, child).core;
            Accepts(h, w.core, after, t, i, k, r, Enqueued(h, w.core, j, i, caller, rights, frame, child))
  {
    k := FindFirst(w.core.ports[i].requests, FREE_ENTRY);
    r := Request(w.core.ports[i].nextSeq, ConnId(w.core, j), caller.holder, caller.domain, caller.generation, rights,
                 child, frame);
  }

  // ---- delivering ----

  function Log(h: Hist, key: PortKey, message: Option<nat>, r: RecvRecord): Hist {
    h.(log := h.log + [Received(key, message, r)])
  }

  lemma LogDelivers(h: Hist, key: PortKey, message: Option<nat>, r: RecvRecord, m: nat)
    ensures Delivered(Log(h, key, message, r), m) <==> Delivered(h, m) || message == Some(m)
  {
    var g := Log(h, key, message, r);
    if Delivered(h, m) {
      var a :| 0 <= a < |h.log| && h.log[a].message == Some(m);
      assert g.log[a] == h.log[a];
    }
    assert g.log[|h.log|].message == message;
    if Delivered(g, m) {
      var a :| 0 <= a < |g.log| && g.log[a].message == Some(m);
      if a < |h.log| { assert h.log[a] == g.log[a]; }
    }
  }

  lemma DequeueShape(core: Core, i: nat, k: nat)
    requires i < |core.ports| && k < PORT_MAX_REQUEST_QUEUE_DEPTH && core.ports[i].live
    ensures EntrySet(core, Dequeue(core, i, k), i, k, EMPTY_REQUEST, core.ports[i].nextSeq)
  {
  }

  function Receipt(r: Request): RecvRecord {
    RecvRecord(RequestReceived, 0, r.ToEnvelope(), r.frame)
  }

  /** The history after the request in entry `k` of port `i` was received. */
  function Deliver(h: Hist, core: Core, i: nat, k: nat): Hist
    requires Filled(core, i, k)
  {
    Log(h, Key(core, i), Some(OwnerAt(h, i, k)), Receipt(core.ports[i].requests[k]))
  }

  /** Entry `k` holds the least number queued at port `i`, and is emptied. */
  predicate Delivers(core: Core, after: Core, i: nat, k: nat) {
    && Filled(core, i, k) && EntrySet(core, after, i, k, EMPTY_REQUEST, core.ports[i].nextSeq)
    && FindLeast(core.ports[i].requests, LIVE, REQUEST_SEQ) == Some(k)
  }

  lemma DeliverKeepsQueued(h: Hist, core: Core, after: Core, i: nat, k: nat, m: nat)
    requires Delivers(core, after, i, k) && FatesOk(h, core)
    ensures Queued(Deliver(h, core, i, k), after, m) <==> Queued(h, core, m) && m != OwnerAt(h, i, k)
  {
    var g := Deliver(h, core, i, k);
    if m in h.sent {
      var x := h.sent[m].port.slot;
      EntryKeepsGone(core, after, i, k, EMPTY_REQUEST, core.ports[i].nextSeq, h.sent[m].port, h.sent[m].connection);
      if Queued(h, core, m) && m != OwnerAt(h, i, k) {
        var l :| 0 <= l < PORT_MAX_REQUEST_QUEUE_DEPTH && Filled(core, x, l) && OwnerAt(h, x, l) == m;
        EntryKeepsLive(core, after, i, k, EMPTY_REQUEST, core.ports[i].nextSeq, x, l);
        assert OwnerAt(g, x, l) == m && Filled(after, x, l);
      }
      if Queued(g, after, m) {
        var l :| 0 <= l < PORT_MAX_REQUEST_QUEUE_DEPTH && Filled(after, x, l) && OwnerAt(g, x, l) == m;
        EntryKeepsLive(core, after, i, k, EMPTY_REQUEST, core.ports[i].nextSeq, x, l);
        assert OwnerAt(h, x, l) == m && Filled(core, x, l);
        assert EntryOk(h, core, x, l) && EntryOk(h, core, i, k);
      }
    }
  }

  lemma DeliverKeepsFates(h: Hist, core: Core, after: Core, i: nat, k: nat)
    requires FatesOk(h, core) && Delivers(core, after, i, k)
    ensures FatesOk(Deliver(h, core, i, k), after)
  {
    hide Queued, Delivered, Faithful;
    var g := Deliver(h, core, i, k);
    var owner := OwnerAt(h, i, k);
    var receipt := Receipt(core.ports[i].requests[k]);
    assert EntryOk(h, core, i, k);
    forall m: nat ensures Delivered(g, m) <==> Delivered(h, m) || m == owner {
      LogDelivers(h, Key(core, i), Some(owner), receipt, m);
    }
    forall x: nat, l: nat | Filled(after, x, l) ensures Filled(core, x, l) && EntryOk(g, after, x, l) {
      EntryKeepsLive(core, after, i, k, EMPTY_REQUEST, core.ports[i].nextSeq, x, l);
      assert EntryOk(h, core, x, l);
      if x == i { assert l != k; }
    }
    forall m | m in g.sent ensures SentOk(g, after, m) {
      assert SentOk(h, core, m);
      DeliverKeepsQueued(h, core, after, i, k, m);
      EntryKeepsGone(core, after, i, k, EMPTY_REQUEST, core.ports[i].nextSeq, h.sent[m].port, h.sent[m].connection);
    }
    forall a | 0 <= a < |g.log| ensures ReceivedOk(g, a) {
      if a < |h.log| { assert ReceivedOk(h, a) && g.log[a] == h.log[a]; }
    }
    NotDeliveredBefore(h, owner);
  }

  lemma NotDeliveredBefore(h: Hist, m: nat)
    requires !Delivered(h, m)
    ensures forall a :: 0 <= a < |h.log| ==> h.log[a].message != Some(m)
  {
  }

  lemma ClockSame(h: Hist, g: Hist, core: Core, after: Core)
    requires ClockOk(h, core) && g.sent == h.sent && g.draws == h.draws && |after.ports| == |core.ports|
    requires forall x :: 0 <= x < |core.ports| ==>
               && after.ports[x].live == core.ports[x].live && after.ports[x].generation == core.ports[x].generation
               && after.ports[x].nextSeq == core.ports[x].nextSeq
    ensures ClockOk(g, after)
  {
    hide NumberOf;
  }

  /** In a calm port the least number is the earliest draw. */
  lemma LeastIsEarliest(h: Hist, core: Core, i: nat, k: nat, l: nat)
    requires FatesOk(h, core) && ClockOk(h, core) && Filled(core, i, k) && Filled(core, i, l) && k != l
    requires Calm(h, Key(core, i)) && core.ports[i].requests[k].seq_ <= core.ports[i].requests[l].seq_
    ensures DrawOf(h, OwnerAt(h, i, k)) < DrawOf(h, OwnerAt(h, i, l))
  {
    hide Queued, Delivered, Gone;
    assert EntryOk(h, core, i, k) && EntryOk(h, core, i, l);
    var m, n := OwnerAt(h, i, k), OwnerAt(h, i, l);
    assert SentOk(h, core, m) && SentOk(h, core, n) && m != n;
    NumberFollows(h.sent[m].draw);
    NumberFollows(h.sent[n].draw);
  }

  lemma DeliverKeepsOrder(h: Hist, core: Core, after: Core, i: nat, k: nat)
    requires FatesOk(h, core) && ClockOk(h, core) && OrderOk(h, core) && Delivers(core, after, i, k)
    ensures OrderOk(Deliver(h, core, i, k), after)
  {
    hide FatesOk, ClockOk;
    var g := Deliver(h, core, i, k);
    assert forall key :: Calm(g, key) == Calm(h, key);
    forall a | 0 <= a < |g.log| ensures Ahead(g, after, a) {
      if a < |h.log| { assert Ahead(h, core, a) && g.log[a] == h.log[a]; }
      forall l | 0 <= l < PORT_MAX_REQUEST_QUEUE_DEPTH && Filled(after, g.log[a].port.slot, l)
             && PortLive(after, g.log[a].port)
                 && Calm(g, g.log[a].port) && g.log[a].message.Some?
        ensures DrawOf(g, g.log[a].message.value) < DrawOf(g, OwnerAt(g, g.log[a].port.slot, l))
      {
        EntryKeepsLive(core, after, i, k, EMPTY_REQUEST, core.ports[i].nextSeq, g.log[a].port.slot, l);
        if a == |h.log| {
          var rs := core.ports[i].requests;
          assert LIVE(rs[l]) && REQUEST_SEQ(rs[k]) <= REQUEST_SEQ(rs[l]);
          LeastIsEarliest(h, core, i, k, l);
        }
      }
    }
    DeliveredInOrder(h, core, i, k);
  }

  lemma DeliveredInOrder(h: Hist, core: Core, i: nat, k: nat)
    requires OrderOk(h, core) && Filled(core, i, k) && core.ports[i].live
    ensures RequestsInOrder(Deliver(h, core, i, k))
  {
    var g := Deliver(h, core, i, k);
    forall a, b | 0 <= a < b < |g.log| && g.log[a].port == g.log[b].port && Calm(g, g.log[a].port)
                  && g.log[a].message.Some? && g.log[b].message.Some?
      ensures DrawOf(g, g.log[a].message.value) < DrawOf(g, g.log[b].message.value)
    {
      assert g.log[a] == h.log[a] && Ahead(h, core, a);
      if b < |h.log| { assert g.log[b] == h.log[b]; }
    }
  }

  /** Receiving a request leaves the notices, received and pending, as they were. */
  lemma DeliverKeepsNotices(h: Hist, core: Core, after: Core, i: nat, k: nat)
    requires NoticesOk(h, core) && Delivers(core, after, i, k)
    ensures NoticesOk(Deliver(h, core, i, k), after)
  {
    var g := Deliver(h, core, i, k);
    EntryKeepsNotices(h, h, core, after, i, k, EMPTY_REQUEST, core.ports[i].nextSeq);
    forall a | 0 <= a < |g.log| && g.log[a].message.None? ensures a < |h.log| && g.log[a] == h.log[a] { }
    forall a | 0 <= a < |g.log| ensures NoticeAhead(g, after, a) {
      if a < |h.log| { assert NoticeAhead(h, after, a) && g.log[a] == h.log[a]; }
    }
    forall j: nat | Pending(after, j) ensures NoticeOk(g, after, j) { assert NoticeOk(h, after, j); }
    forall a | 0 <= a < |g.log|
      ensures g.log[a].port.slot < |after.ports|
      ensures g.log[a].port.generation <= after.ports[g.log[a].port.slot].generation
    {
      if a < |h.log| { assert g.log[a] == h.log[a]; }
    }
  }

  /** A request is delivered as sent, once, after all that were delivered before it. */
  lemma DeliverKeepsHistory(h: Hist, core: Core, after: Core, i: nat, k: nat)
    requires HistoryOk(h, core) && Delivers(core, after, i, k)
    ensures HistoryOk(Deliver(h, core, i, k), after)
  {
    hide FatesOk, ClockOk, OrderOk, NoticesOk;
    DeliverKeepsFates(h, core, after, i, k);
    ClockSame(h, Deliver(h, core, i, k), core, after);
    DeliverKeepsOrder(h, core, after, i, k);
    DeliverKeepsNotices(h, core, after, i, k);
  }

  // ---- notices ----

  /** No pending notice of the port has a smaller number; ties go to the lower slot. */
  lemma OldestNoticeIsFirst(h: Hist, core: Core, i: nat, j: nat, x: nat)
    requires NoticesOk(h, core) && i < |core.ports| && Pending(core, x) && x != j && core.conns[x].port == Key(core, i)
    requires FindLeast(core.conns, NoticeFor(Key(core, i)), CLOSE_SEQ) == Some(j)
    ensures core.conns[j].closeSeq < core.conns[x].closeSeq
            || (core.conns[j].closeSeq == core.conns[x].closeSeq && j < x)
    ensures Calm(h, Key(core, i)) ==> core.conns[j].closeSeq < core.conns[x].closeSeq
  {
    assert NoticeFor(Key(core, i))(core.conns[x]);
    assert CLOSE_SEQ(core.conns[j]) <= CLOSE_SEQ(core.conns[x]);
  }

  function Notify(h: Hist, core: Core, i: nat, j: nat): Hist
    requires i < |core.ports| && Pending(core, j)
  {
    Log(h, Key(core, i), None, NoticeRecord(core, j))
  }

  lemma NotifyKeepsNotices(h: Hist, core: Core, after: Core, i: nat, j: nat)
    requires Inv(core) && NoticesOk(h, core) && i < |core.ports| && core.ports[i].live && Pending(core, j)
    requires FindLeast(core.conns, NoticeFor(Key(core, i)), CLOSE_SEQ) == Some(j)
    requires after == core.(conns := core.conns[j := core.conns[j].Freed()])
    ensures NoticesOk(Notify(h, core, i, j), after)
  {
    hide Inv;
    var g := Notify(h, core, i, j);
    var record := NoticeRecord(core, j);
    assert NoticeFor(Key(core, i))(core.conns[j]);
    assert g.log[|h.log|] == Received(Key(core, i), None, record);
    forall x: nat | Pending(after, x)
      ensures x != j && Pending(core, x) && after.conns[x] == core.conns[x] && NoticeOk(g, after, x)
    {
      assert NoticeOk(h, core, x);
    }
    forall a | 0 <= a < |g.log| ensures NoticeAhead(g, after, a) {
      if a < |h.log| {
        assert NoticeAhead(h, core, a) && g.log[a] == h.log[a];
      } else {
        NewestIsAhead(h, core, after, i, j);
      }
    }
    NotifiedInOrder(h, core, i, j);
  }

  lemma NewestIsAhead(h: Hist, core: Core, after: Core, i: nat, j: nat)
    requires NoticesOk(h, core) && i < |core.ports| && core.ports[i].live && Pending(core, j)
    requires core.conns[j].port == Key(core, i)
    requires FindLeast(core.conns, NoticeFor(Key(core, i)), CLOSE_SEQ) == Some(j)
    requires after == core.(conns := core.conns[j := core.conns[j].Freed()])
    ensures NoticeAhead(Notify(h, core, i, j), after, |h.log|)
  {
    assert NoticeOk(h, core, j);
    forall x: nat | Pending(after, x) && after.conns[x].port == Key(core, i) && Calm(h, Key(core, i))
      ensures core.conns[j].closeSeq < after.conns[x].closeSeq
    {
      OldestNoticeIsFirst(h, core, i, j, x);
    }
  }

  lemma NotifiedInOrder(h: Hist, core: Core, i: nat, j: nat)
    requires NoticesOk(h, core) && i < |core.ports| && core.ports[i].live && Pending(core, j)
    requires core.conns[j].port == Key(core, i)
    ensures NoticesInOrder(Notify(h, core, i, j))
  {
    var g := Notify(h, core, i, j);
    forall a, b | 0 <= a < b < |g.log| && g.log[a].port == g.log[b].port && Calm(g, g.log[a].port)
                  && g.log[a].message.None? && g.log[b].message.None?
      ensures g.log[a].record.envelope.kernelSeq < g.log[b].record.envelope.kernelSeq
    {
      assert g.log[a] == h.log[a] && NoticeAhead(h, core, a);
      if b < |h.log| { assert g.log[b] == h.log[b]; }
    }
  }

  /** Logging what is not a request changes no fate and no order of requests. */
  lemma LogKeepsRequests(h: Hist, core: Core, key: PortKey, r: RecvRecord)
    requires FatesOk(h, core) && OrderOk(h, core) && !r.kind.RequestReceived?
    ensures FatesOk(Log(h, key, None, r), core) && OrderOk(Log(h, key, None, r), core)
    ensures forall m: nat :: Delivered(Log(h, key, None, r), m) == Delivered(h, m)
    ensures forall m: nat :: Queued(Log(h, key, None, r), core, m) == Queued(h, core, m)
  {
    hide Delivered, Faithful;
    var g := Log(h, key, None, r);
    forall m: nat ensures Delivered(g, m) == Delivered(h, m) { LogDelivers(h, key, None, r, m); }
    forall i: nat, k: nat ensures OwnerAt(g, i, k) == OwnerAt(h, i, k) { }
    forall m: nat ensures Queued(g, core, m) == Queued(h, core, m) { }
    forall a | 0 <= a < |g.log| && g.log[a].message.Some? ensures a < |h.log| && g.log[a] == h.log[a] { }
    forall i: nat, k: nat | Filled(core, i, k) ensures EntryOk(g, core, i, k) { assert EntryOk(h, core, i, k); }
    forall m | m in g.sent ensures SentOk(g, core, m) { assert SentOk(h, core, m); }
    forall a | 0 <= a < |g.log| ensures ReceivedOk(g, a) && Ahead(g, core, a) {
      if a < |h.log| { assert ReceivedOk(h, a) && Ahead(h, core, a) && g.log[a] == h.log[a]; }
    }
  }

  /** The oldest close notice is delivered before any request, and frees its connection. */
  lemma NotifyKeepsHistory(h: Hist, core: Core, i: nat, j: nat)
    requires Inv(core) && HistoryOk(h, core) && i < |core.ports| && core.ports[i].live && Pending(core, j)
    requires FindLeast(core.conns, NoticeFor(Key(core, i)), CLOSE_SEQ) == Some(j)
    ensures HistoryOk(Notify(h, core, i, j), core.(conns := core.conns[j := core.conns[j].Freed()]))
  {
    hide FatesOk, ClockOk, OrderOk, NoticesOk, Quiet;
    var after := core.(conns := core.conns[j := core.conns[j].Freed()]);
    assert ConnOk(core, j);
    SetConnIsQuiet(core, j, core.conns[j].Freed());
    QuietKeepsHistory(h, core, after, None);
    LogKeepsRequests(h, after, Key(core, i), NoticeRecord(core, j));
    ClockSame(h, Notify(h, core, i, j), core, after);
    NotifyKeepsNotices(h, core, after, i, j);
  }
}
