/**
 What becomes of every accepted SEND. A history records what was accepted, how many numbers each
 port has drawn and what servers received. Each accepted request is queued, delivered once as it
 was sent, or purged because its connection or port ended; this needs no bound on the counters.
 The order of delivery does: it is kept for every port that has not yet drawn a number twice.
 */
module PortHistory {
  import opened Wrappers
  import opened Capability
  import opened PortTypes
  import opened PortSteps
  import opened PortInvariant

  /** What an accepted SEND queued, and which draw of its port's counter numbered it. */
  datatype Sent = Sent(port: PortKey, connection: SlotId, caller: Caller, frame: Frame, rights: Rights,
                       transfer: Option<TransferredCap>, draw: nat)

  /** Something a server received; `message` tells which accepted SEND, if it is a request. */
  datatype Received = Received(port: PortKey, message: Option<nat>, record: RecvRecord)

  /**
   A message is known by the step that accepted it. `owner` tells which message each pool entry was
   last filled with, `draws` how many numbers each port has drawn since it was registered.
   */
  datatype Hist = Hist(sent: map<nat, Sent>, owner: map<(nat, nat), nat>, draws: map<PortKey, nat>, log: seq<Received>)

  const NO_HISTORY := Hist(map[], map[], map[], [])

  // ---- numbers ----

  /** The number that draw `n` yields, counting from 0: 1 up to the largest u64, then 1 again. */
  function NumberOf(n: nat): u64 {
    1 + n % U64_MAX
  }

  lemma NumberFollows(n: nat)
    ensures NextSeq(NumberOf(n)) == NumberOf(n + 1) && NumberOf(n) >= 1
    ensures n < U64_MAX ==> NumberOf(n) == n + 1
  {
    if n % U64_MAX == U64_MAX - 1 {
      assert n + 1 == (n / U64_MAX + 1) * U64_MAX;
    }
  }

  function Drawn(h: Hist, key: PortKey): nat {
    if key in h.draws then h.draws[key] else 0
  }

  function Draw(h: Hist, key: PortKey): Hist {
    h.(draws := h.draws[key := Drawn(h, key) + 1])
  }

  /** The history after a change that drew at most one number and accepted and delivered nothing. */
  function Noted(h: Hist, drawn: Option<PortKey>): Hist {
    if drawn.Some? then Draw(h, drawn.value) else h
  }

  /** The port has not drawn any number twice. */
  predicate Calm(h: Hist, key: PortKey) {
    Drawn(h, key) <= U64_MAX
  }

  // ---- fates ----

  /** The server sees exactly what the client sent: the whole envelope and the frame. */
  predicate Faithful(s: Sent, e: Envelope, frame: Frame) {
    && frame == s.frame
    && e == Envelope(s.connection, s.caller.holder, s.caller.domain, s.caller.generation, NumberOf(s.draw), s.rights,
                     s.transfer)
  }

  function OwnerAt(h: Hist, i: nat, k: nat): nat {
    if (i, k) in h.owner then h.owner[(i, k)] else 0
  }

  function DrawOf(h: Hist, m: nat): nat {
    if m in h.sent then h.sent[m].draw else 0
  }

  predicate Filled(core: Core, i: nat, k: nat) {
    i < |core.ports| && k < PORT_MAX_REQUEST_QUEUE_DEPTH && core.ports[i].requests[k].IsLive()
  }

  predicate Queued(h: Hist, core: Core, m: nat) {
    && m in h.sent && PortLive(core, h.sent[m].port)
    && exists k :: 0 <= k < PORT_MAX_REQUEST_QUEUE_DEPTH && Filled(core, h.sent[m].port.slot, k)
                   && OwnerAt(h, h.sent[m].port.slot, k) == m
  }

  predicate Delivered(h: Hist, m: nat) {
    exists a :: 0 <= a < |h.log| && h.log[a].message == Some(m)
  }

  /** The port is gone, or the connection is no longer Open. */
  predicate Gone(core: Core, key: PortKey, id: SlotId) {
    !PortLive(core, key) || id.slot >= |core.conns| || ConnId(core, id.slot) != id || !core.conns[id.slot].state.Open?
  }

  // ---- the invariant ----

  /** A queued request is the one its owner sent, and was not delivered. */
  predicate EntryOk(h: Hist, core: Core, i: nat, k: nat)
    requires Filled(core, i, k)
  {
    var m := OwnerAt(h, i, k);
    && (i, k) in h.owner && m in h.sent && h.sent[m].port == Key(core, i) && !Delivered(h, m)
    && Faithful(h.sent[m], core.ports[i].requests[k].ToEnvelope(), core.ports[i].requests[k].frame)
  }

  ghost predicate OwnersDiffer(h: Hist, core: Core) {
    forall i: nat, k: nat, l: nat ::
      k < l && Filled(core, i, k) && Filled(core, i, l) ==> OwnerAt(h, i, k) != OwnerAt(h, i, l)
  }

  predicate SentOk(h: Hist, core: Core, m: nat)
    requires m in h.sent
  {
    var s := h.sent[m];
    && s.port.slot < |core.ports| && s.port.generation <= core.ports[s.port.slot].generation
    && s.connection.slot < |core.conns| && s.connection.generation <= core.conns[s.connection.slot].generation
    && s.draw < Drawn(h, s.port)
    && (Queued(h, core, m) || Delivered(h, m) || Gone(core, s.port, s.connection))
  }

  predicate ReceivedOk(h: Hist, a: nat)
    requires a < |h.log|
  {
    var r := h.log[a];
    if r.message.None? then !r.record.kind.RequestReceived?
    else
      && r.record.kind.RequestReceived? && r.message.value in h.sent && h.sent[r.message.value].port == r.port
      && Faithful(h.sent[r.message.value], r.record.envelope, r.record.frame)
  }

  /** No message is delivered twice. */
  predicate Once(h: Hist) {
    forall a, b :: 0 <= a < b < |h.log| && h.log[a].message.Some? ==> h.log[a].message != h.log[b].message
  }

  ghost predicate FatesOk(h: Hist, core: Core) {
    && (forall i: nat, k: nat :: Filled(core, i, k) ==> EntryOk(h, core, i, k))
    && OwnersDiffer(h, core)
    && (forall m :: m in h.sent ==> SentOk(h, core, m))
    && (forall a :: 0 <= a < |h.log| ==> ReceivedOk(h, a))
    && Once(h)
  }

  /** Counters show how many numbers were drawn; later messages of a port have later draws. */
  predicate ClockOk(h: Hist, core: Core) {
    && (forall i ::
          0 <= i < |core.ports| && core.ports[i].live ==> core.ports[i].nextSeq == NumberOf(Drawn(h, Key(core, i))))
    && (forall key :: key in h.draws ==> key.slot < |core.ports| && key.generation <= core.ports[key.slot].generation)
    && (forall m, n :: m in h.sent && n in h.sent && m < n && h.sent[m].port == h.sent[n].port ==>
          h.sent[m].draw < h.sent[n].draw)
  }

  /** A delivered request of a calm port was sent before everything the port still holds. */
  predicate Ahead(h: Hist, core: Core, a: nat)
    requires a < |h.log|
  {
    var r := h.log[a];
    r.message.Some? && PortLive(core, r.port) && Calm(h, r.port) ==>
      forall k :: 0 <= k < PORT_MAX_REQUEST_QUEUE_DEPTH && Filled(core, r.port.slot, k) ==>
        DrawOf(h, r.message.value) < DrawOf(h, OwnerAt(h, r.port.slot, k))
  }

  /** The requests of a calm port are delivered in the order they were sent. */
  predicate RequestsInOrder(h: Hist) {
    forall a, b :: 0 <= a < b < |h.log| && h.log[a].port == h.log[b].port && Calm(h, h.log[a].port)
                   && h.log[a].message.Some? && h.log[b].message.Some? ==>
      DrawOf(h, h.log[a].message.value) < DrawOf(h, h.log[b].message.value)
  }

  predicate OrderOk(h: Hist, core: Core) {
    RequestsInOrder(h) && forall a :: 0 <= a < |h.log| ==> Ahead(h, core, a)
  }

  predicate Pending(core: Core, j: nat) {
    j < |core.conns| && core.conns[j].state.ClosePending?
  }

  /** A pending notice of a calm port carries a number the port has drawn. */
  predicate NoticeOk(h: Hist, core: Core, j: nat)
    requires Pending(core, j)
  {
    Calm(h, core.conns[j].port) ==> core.conns[j].closeSeq <= Drawn(h, core.conns[j].port)
  }

  /** A received notice of a calm port is older than every pending one. */
  ghost predicate NoticeAhead(h: Hist, core: Core, a: nat)
    requires a < |h.log|
  {
    var r := h.log[a];
    r.message.None? && PortLive(core, r.port) && Calm(h, r.port) ==>
      && r.record.envelope.kernelSeq <= Drawn(h, r.port)
      && forall j: nat ::
           Pending(core, j) && core.conns[j].port == r.port ==> r.record.envelope.kernelSeq < core.conns[j].closeSeq
  }

  ghost predicate NoticesDiffer(h: Hist, core: Core) {
    forall j: nat, l: nat :: j < l && Pending(core, j) && Pending(core, l) && core.conns[j].port == core.conns[l].port
                             && Calm(h, core.conns[j].port) ==>
      core.conns[j].closeSeq != core.conns[l].closeSeq
  }

  predicate NoticesInOrder(h: Hist) {
    forall a, b :: 0 <= a < b < |h.log| && h.log[a].port == h.log[b].port && Calm(h, h.log[a].port)
                   && h.log[a].message.None? && h.log[b].message.None? ==>
      h.log[a].record.envelope.kernelSeq < h.log[b].record.envelope.kernelSeq
  }

  ghost predicate NoticesOk(h: Hist, core: Core) {
    && (forall j: nat :: Pending(core, j) ==> NoticeOk(h, core, j))
    && NoticesDiffer(h, core) && NoticesInOrder(h)
    && (forall a :: 0 <= a < |h.log| ==> NoticeAhead(h, core, a))
    && (forall a :: 0 <= a < |h.log| ==>
          h.log[a].port.slot < |core.ports| && h.log[a].port.generation <= core.ports[h.log[a].port.slot].generation)
  }

  ghost predicate HistoryOk(h: Hist, core: Core) {
    FatesOk(h, core) && ClockOk(h, core) && OrderOk(h, core) && NoticesOk(h, core)
  }

  // ---- changes that accept and deliver nothing ----

  /** Port `i` keeps or purges its queue, and draws one number if `drawn` names it. */
  predicate QuietPort(core: Core, after: Core, i: nat, drawn: Option<PortKey>)
    requires i < |core.ports| == |after.ports|
  {
    var p := core.ports[i];
    var q := after.ports[i];
    && p.generation <= q.generation
    && (p.generation < q.generation ==> !p.live && q.nextSeq == 1)
    && (q.live && q.generation == p.generation ==>
          p.live && q.nextSeq == if drawn == Some(Key(core, i)) then NextSeq(p.nextSeq) else p.nextSeq)
    && (forall k :: 0 <= k < |q.requests| && q.requests[k].IsLive() ==> q.live && q.requests[k] == p.requests[k])
    && (forall k :: 0 <= k < |p.requests| && p.requests[k].IsLive() && !q.requests[k].IsLive() ==>
          Gone(after, Key(core, i), p.requests[k].connection))
  }

  predicate SameNotice(c: Connection, d: Connection) {
    c.state.ClosePending? && c.port == d.port && c.closeSeq == d.closeSeq
  }

  /** Connection `j` became a notice with the number that was drawn. */
  predicate NewNotice(core: Core, after: Core, j: nat, drawn: Option<PortKey>)
    requires j < |after.conns|
  {
    var d := after.conns[j];
    drawn == Some(d.port) && PortLive(core, d.port) && d.closeSeq == core.ports[d.port.slot].nextSeq
  }

  predicate QuietConn(core: Core, after: Core, j: nat, drawn: Option<PortKey>)
    requires j < |core.conns| == |after.conns|
  {
    var c := core.conns[j];
    var d := after.conns[j];
    && c.generation <= d.generation
    && (d.state.Open? && d.generation == c.generation ==> c.state.Open?)
    && (d.state.ClosePending? ==> SameNotice(c, d) || NewNotice(core, after, j, drawn))
  }

  /** Nothing is accepted or delivered, and at most one connection becomes a notice. */
  ghost predicate Quiet(core: Core, after: Core, drawn: Option<PortKey>) {
    && |core.ports| == |after.ports| && |core.conns| == |after.conns|
    && (drawn.Some? ==> PortLive(core, drawn.value))
    && (forall i :: 0 <= i < |core.ports| ==> QuietPort(core, after, i, drawn))
    && (forall j :: 0 <= j < |core.conns| ==> QuietConn(core, after, j, drawn))
    && (forall j: nat, l: nat :: j < l && Pending(after, j) && Pending(after, l) ==>
          SameNotice(core.conns[j], after.conns[j]) || SameNotice(core.conns[l], after.conns[l]))
  }

  lemma LiveStays(core: Core, after: Core, drawn: Option<PortKey>, i: nat, k: nat)
    requires Inv(core) && Quiet(core, after, drawn) && Filled(after, i, k)
    ensures Filled(core, i, k) && after.ports[i].requests[k] == core.ports[i].requests[k]
    ensures core.ports[i].live && after.ports[i].live && Key(after, i) == Key(core, i)
  {
    assert QuietPort(core, after, i, drawn) && PortOk(core, i);
  }

  lemma GoneStays(core: Core, after: Core, drawn: Option<PortKey>, key: PortKey, id: SlotId)
    requires Quiet(core, after, drawn) && Gone(core, key, id) && key.slot < |core.ports|
    requires key.generation <= core.ports[key.slot].generation
    requires id.slot < |core.conns| && id.generation <= core.conns[id.slot].generation
    ensures Gone(after, key, id)
  {
    assert QuietPort(core, after, key.slot, drawn) && QuietConn(core, after, id.slot, drawn);
  }

  lemma QuietUnqueues(h: Hist, core: Core, after: Core, drawn: Option<PortKey>, m: nat)
    requires Inv(core) && Quiet(core, after, drawn) && Queued(Noted(h, drawn), after, m)
    ensures Queued(h, core, m)
  {
    var i := h.sent[m].port.slot;
    var k :| 0 <= k < PORT_MAX_REQUEST_QUEUE_DEPTH && Filled(after, i, k) && OwnerAt(Noted(h, drawn), i, k) == m;
    LiveStays(core, after, drawn, i, k);
    assert OwnerAt(h, i, k) == m;
  }

  lemma QuietKeepsSent(h: Hist, core: Core, after: Core, drawn: Option<PortKey>, m: nat)
    requires Inv(core) && FatesOk(h, core) && Quiet(core, after, drawn) && m in h.sent
    ensures SentOk(Noted(h, drawn), after, m)
  {
    var g := Noted(h, drawn);
    var s := h.sent[m];
    assert SentOk(h, core, m) && Delivered(h, m) == Delivered(g, m);
    assert QuietPort(core, after, s.port.slot, drawn) && QuietConn(core, after, s.connection.slot, drawn);
    if Queued(h, core, m) {
      var i := s.port.slot;
      var k :| 0 <= k < PORT_MAX_REQUEST_QUEUE_DEPTH && Filled(core, i, k) && OwnerAt(h, i, k) == m;
      assert EntryOk(h, core, i, k);
      if Filled(after, i, k) {
        LiveStays(core, after, drawn, i, k);
        assert OwnerAt(g, i, k) == m && Queued(g, after, m);
      } else {
        assert core.ports[i].requests[k].connection == s.connection;
      }
    } else if Gone(core, s.port, s.connection) {
      GoneStays(core, after, drawn, s.port, s.connection);
    }
  }

  lemma QuietKeepsFates(h: Hist, core: Core, after: Core, drawn: Option<PortKey>)
    requires Inv(core) && FatesOk(h, core) && Quiet(core, after, drawn)
    ensures FatesOk(Noted(h, drawn), after)
  {
    hide Quiet, Inv, SentOk, Queued;
    var g := Noted(h, drawn);
    assert forall m :: Delivered(g, m) == Delivered(h, m);
    forall i: nat, k: nat | Filled(after, i, k) ensures EntryOk(g, after, i, k) {
      LiveStays(core, after, drawn, i, k);
      assert EntryOk(h, core, i, k);
    }
    forall i: nat, k: nat, l: nat | k < l && Filled(after, i, k) && Filled(after, i, l)
      ensures OwnerAt(g, i, k) != OwnerAt(g, i, l)
    {
      LiveStays(core, after, drawn, i, k);
      LiveStays(core, after, drawn, i, l);
    }
    forall m | m in g.sent ensures SentOk(g, after, m) { QuietKeepsSent(h, core, after, drawn, m); }
    forall a | 0 <= a < |g.log| ensures ReceivedOk(g, a) { assert ReceivedOk(h, a); }
  }

  lemma QuietKeepsClock(h: Hist, core: Core, after: Core, drawn: Option<PortKey>)
    requires ClockOk(h, core) && Quiet(core, after, drawn)
    ensures ClockOk(Noted(h, drawn), after)
  {
    hide NumberOf;
    var g := Noted(h, drawn);
    forall i | 0 <= i < |after.ports| && after.ports[i].live
      ensures after.ports[i].nextSeq == NumberOf(Drawn(g, Key(after, i)))
    {
      assert QuietPort(core, after, i, drawn);
      NumberFollows(Drawn(h, Key(core, i)));
      NumberFollows(0);
    }
    forall key | key in g.draws ensures key.slot < |after.ports| && key.generation <= after.ports[key.slot].generation {
      assert QuietPort(core, after, key.slot, drawn);
    }
  }

  lemma QuietKeepsOrder(h: Hist, core: Core, after: Core, drawn: Option<PortKey>)
    requires Inv(core) && OrderOk(h, core) && Quiet(core, after, drawn)
    ensures OrderOk(Noted(h, drawn), after)
  {
    hide Quiet, Inv;
    var g := Noted(h, drawn);
    assert forall key :: Calm(g, key) ==> Calm(h, key);
    forall a | 0 <= a < |g.log| ensures Ahead(g, after, a) {
      assert Ahead(h, core, a);
      var r := g.log[a];
      if r.message.Some? && PortLive(after, r.port) && Calm(g, r.port) {
        forall k | 0 <= k < PORT_MAX_REQUEST_QUEUE_DEPTH && Filled(after, r.port.slot, k)
          ensures DrawOf(g, r.message.value) < DrawOf(g, OwnerAt(g, r.port.slot, k))
        {
          LiveStays(core, after, drawn, r.port.slot, k);
        }
      }
    }
  }

  /** A pending notice after the change was pending before, or carries the newest number of its port. */
  lemma PendingAfter(h: Hist, core: Core, after: Core, drawn: Option<PortKey>, j: nat)
    requires Inv(core) && ClockOk(h, core) && Quiet(core, after, drawn) && Pending(after, j)
    ensures var d := after.conns[j];
            || (Pending(core, j) && SameNotice(core.conns[j], d))
            || (drawn == Some(d.port) && (Calm(Noted(h, drawn), d.port) ==> d.closeSeq == Drawn(h, d.port) + 1))
  {
    assert QuietConn(core, after, j, drawn);
    if !SameNotice(core.conns[j], after.conns[j]) {
      NumberFollows(Drawn(h, after.conns[j].port));
    }
  }

  lemma QuietKeepsNotices(h: Hist, core: Core, after: Core, drawn: Option<PortKey>)
    requires Inv(core) && ClockOk(h, core) && NoticesOk(h, core) && Quiet(core, after, drawn)
    ensures NoticesOk(Noted(h, drawn), after)
  {
    hide Inv, ClockOk, NumberOf;
    var g := Noted(h, drawn);
    assert forall key :: Calm(g, key) ==> Calm(h, key);
    forall j: nat | Pending(after, j) ensures NoticeOk(g, after, j) {
      PendingAfter(h, core, after, drawn, j);
      if Pending(core, j) { assert NoticeOk(h, core, j); }
    }
    forall j: nat, l: nat | j < l && Pending(after, j) && Pending(after, l)
           && after.conns[j].port == after.conns[l].port
                  && Calm(g, after.conns[j].port)
      ensures after.conns[j].closeSeq != after.conns[l].closeSeq
    {
      PendingAfter(h, core, after, drawn, j);
      PendingAfter(h, core, after, drawn, l);
      if Pending(core, j) { assert NoticeOk(h, core, j); }
      if Pending(core, l) { assert NoticeOk(h, core, l); }
    }
    forall a | 0 <= a < |g.log| ensures NoticeAhead(g, after, a) {
      assert NoticeAhead(h, core, a) && QuietPort(core, after, g.log[a].port.slot, drawn);
      forall j: nat | Pending(after, j) && after.conns[j].port == g.log[a].port && PortLive(after, g.log[a].port)
                 && Calm(g, g.log[a].port) && g.log[a].message.None?
        ensures g.log[a].record.envelope.kernelSeq < after.conns[j].closeSeq
      {
        PendingAfter(h, core, after, drawn, j);
      }
    }
    forall a | 0 <= a < |g.log| ensures g.log[a].port.generation <= after.ports[g.log[a].port.slot].generation {
      assert QuietPort(core, after, g.log[a].port.slot, drawn);
    }
  }

  lemma QuietKeepsHistory(h: Hist, core: Core, after: Core, drawn: Option<PortKey>)
    requires Inv(core) && HistoryOk(h, core) && Quiet(core, after, drawn)
    ensures HistoryOk(Noted(h, drawn), after)
  {
    hide Inv, FatesOk, ClockOk, OrderOk, NoticesOk, Quiet;
    QuietKeepsFates(h, core, after, drawn);
    QuietKeepsClock(h, core, after, drawn);
    QuietKeepsOrder(h, core, after, drawn);
    QuietKeepsNotices(h, core, after, drawn);
  }
}
