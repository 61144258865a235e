/** The engine's own consistency check, and the order in which a queue is received. */
module PortTheorems {
  import opened Wrappers
  import opened Capability
  import opened Counting
  import opened PortTypes
  import opened PortSteps
  import opened PortInvariant

  /** Requests satisfying `p` over all ports. */
  function CountAll(ports: seq<Port>, p: Request -> bool): nat {
    if ports == [] then 0 else CountAll(ports[..|ports| - 1], p) + Count(ports[|ports| - 1].requests, p)
  }

  /** Requests of a connection are queued only at its own port, and only while it is Open. */
  lemma OnlyOwnPortCounts(core: Core, j: nat, i: nat)
    requires Inv(core) && j < |core.conns| && i < |core.ports|
    requires !core.conns[j].state.Open? || core.conns[j].port.slot != i
    ensures Count(core.ports[i].requests, OfConn(ConnId(core, j))) == 0
    ensures Count(core.ports[i].requests, CarriesFor(ConnId(core, j))) == 0
  {
    var rs := core.ports[i].requests;
    assert PortOk(core, i);
    forall k | 0 <= k < |rs| ensures !OfConn(ConnId(core, j))(rs[k]) {
      assert RequestOk(core, i, rs[k]);
    }
    CountZero(rs, OfConn(ConnId(core, j)));
    CountZero(rs, CarriesFor(ConnId(core, j)));
  }

  lemma {:induction false} CountAllTo(core: Core, j: nat, n: nat)
    requires Inv(core) && j < |core.conns| && n <= |core.ports|
    ensures var c := core.conns[j];
            var here := c.state.Open? && c.port.slot < n;
            && CountAll(core.ports[..n], OfConn(ConnId(core, j))) == (if here then c.outstanding else 0)
            && CountAll(core.ports[..n], CarriesFor(ConnId(core, j))) == (if here then c.transfersInFlight else 0)
  {
    assert ConnOk(core, j);
    if n > 0 {
      CountAllTo(core, j, n - 1);
      assert core.ports[..n][..n - 1] == core.ports[..n - 1];
      if !core.conns[j].state.Open? || core.conns[j].port.slot != n - 1 {
        OnlyOwnPortCounts(core, j, n - 1);
      }
    }
  }

  /** The consistency check the engine defines over its whole state. */
  predicate CheckInvariants(core: Core) {
    && (forall i :: 0 <= i < |core.ports| ==> CheckPort(core.ports[i]))
    && (forall j :: 0 <= j < |core.conns| && !core.conns[j].state.Free? ==> CheckConnection(core, j))
  }

  predicate CheckPort(p: Port) {
    if p.live then
      && Count(p.requests, LIVE) <= p.params.requestDepth
      && Count(p.requests, CARRIES) == p.transfersInFlight <= PORT_MAX_TRANSFERS_IN_FLIGHT
    else Count(p.requests, LIVE) == 0
  }

  predicate CheckConnection(core: Core, j: nat)
    requires j < |core.conns|
  {
    var c := core.conns[j];
    var requests := CountAll(core.ports, OfConn(ConnId(core, j)));
    var transfers := CountAll(core.ports, CarriesFor(ConnId(core, j)));
    && (requests != 0 ==> c.state.Open?)
    && requests == c.outstanding
    && transfers == c.transfersInFlight <= PORT_MAX_TRANSFERS_IN_FLIGHT_PER_CONNECTION
    && (if PortLive(core, c.port) then
          && c.outstanding <= core.ports[c.port.slot].params.maxOutstanding
          && c.eventLen <= core.ports[c.port.slot].params.eventDepth
        else c.state.ServerGone?)
  }

  lemma InvPassesCheck(core: Core)
    requires Inv(core)
    ensures CheckInvariants(core)
  {
    forall i | 0 <= i < |core.ports| ensures CheckPort(core.ports[i]) {
      assert PortOk(core, i);
      CountZero(core.ports[i].requests, LIVE);
    }
    forall j | 0 <= j < |core.conns| && !core.conns[j].state.Free? ensures CheckConnection(core, j) {
      CountAllTo(core, j, |core.ports|);
      assert core.ports[..|core.ports|] == core.ports;
      assert ConnOk(core, j);
      var c := core.conns[j];
      if PortLive(core, c.port) { assert PortOk(core, c.port.slot); }
    }
  }

  // ---- the order in which a queue is received ----

  /** The pool entries in the order in which repeated receives take them. */
  function Drain(rs: RequestPool): seq<nat>
    decreases Count(rs, LIVE)
  {
    match FindLeast(rs, LIVE, REQUEST_SEQ)
    case None => []
    case Some(k) =>
      CountUpdate(rs, k, EMPTY_REQUEST, LIVE);
      [k] + Drain(rs[k := EMPTY_REQUEST])
  }

  predicate Precedes(order: seq<nat>, k: nat, l: nat) {
    exists a, b :: 0 <= a < b < |order| && order[a] == k && order[b] == l
  }

  /** The smaller number is received first; of equal numbers, the one in the lower entry. */
  predicate Smaller(rs: RequestPool, k: nat, l: nat)
    requires k < |rs| && l < |rs|
  {
    rs[k].seq_ < rs[l].seq_ || (rs[k].seq_ == rs[l].seq_ && k < l)
  }

  /** A receive with no notice pending returns the head of the order and leaves its tail. */
  lemma DrainIsReceived(w: World, caller: Caller, serve: nat)
    requires AuthorizeServe(w.core, w.table, caller, serve).Success?
    requires FindLeast(w.core.conns, NoticeFor(Key(w.core, AuthorizeServe(w.core, w.table, caller, serve).value)),
                       CLOSE_SEQ).None?
    ensures var i := AuthorizeServe(w.core, w.table, caller, serve).value;
            var rs := w.core.ports[i].requests;
            var (after, r) := Recv(w, caller, serve);
            && (r.Success? <==> Drain(rs) != [])
            && (r.Success? ==>
                  && Drain(rs)[0] < |rs|
                  && r.value == RecvRecord(RequestReceived, 0, rs[Drain(rs)[0]].ToEnvelope(), rs[Drain(rs)[0]].frame)
                  && i < |after.core.ports| && Drain(after.core.ports[i].requests) == Drain(rs)[1..])
  {
    hide AuthorizeServe;
  }

  lemma {:induction false} DrainIsLive(rs: RequestPool, x: nat)
    ensures x in Drain(rs) <==> x < |rs| && rs[x].IsLive()
    decreases Count(rs, LIVE)
  {
    var least := FindLeast(rs, LIVE, REQUEST_SEQ);
    if least.Some? {
      var k := least.value;
      CountUpdate(rs, k, EMPTY_REQUEST, LIVE);
      DrainIsLive(rs[k := EMPTY_REQUEST], x);
      assert LIVE(rs[k]);
    } else if x < |rs| {
      assert !LIVE(rs[x]);
    }
  }

  lemma PrecedesTail(k: nat, order: seq<nat>, x: nat, y: nat)
    ensures Precedes([k] + order, x, y) <==> (x == k && y in order) || Precedes(order, x, y)
  {
    var whole := [k] + order;
    if Precedes(whole, x, y) {
      var a, b :| 0 <= a < b < |whole| && whole[a] == x && whole[b] == y;
      assert order[b - 1] == y;
      if a > 0 { assert order[a - 1] == x; }
    }
    if x == k && y in order {
      var b :| 0 <= b < |order| && order[b] == y;
      assert whole[0] == x && whole[b + 1] == y;
    }
    if Precedes(order, x, y) {
      var a, b :| 0 <= a < b < |order| && order[a] == x && order[b] == y;
      assert whole[a + 1] == x && whole[b + 1] == y;
    }
  }

  /** Of two queued requests the one with the smaller number is received first. */
  lemma {:induction false} DrainIsByNumber(rs: RequestPool, x: nat, y: nat)
    requires x < |rs| && y < |rs| && x != y && rs[x].IsLive() && rs[y].IsLive()
    ensures Precedes(Drain(rs), x, y) <==> Smaller(rs, x, y)
    decreases Count(rs, LIVE)
  {
    hide Precedes;
    assert LIVE(rs[x]) && LIVE(rs[y]);
    var k := FindLeast(rs, LIVE, REQUEST_SEQ).value;
    var rest := rs[k := EMPTY_REQUEST];
    CountUpdate(rs, k, EMPTY_REQUEST, LIVE);
    PrecedesTail(k, Drain(rest), x, y);
    DrainIsLive(rest, x);
    DrainIsLive(rest, y);
    assert REQUEST_SEQ(rs[k]) <= REQUEST_SEQ(rs[x]) && REQUEST_SEQ(rs[k]) <= REQUEST_SEQ(rs[y]);
    if x != k && y != k {
      DrainIsByNumber(rest, x, y);
    } else {
      PrecedesIsIn(Drain(rest), x, y);
    }
  }

  lemma PrecedesIsIn(order: seq<nat>, x: nat, y: nat)
    ensures Precedes(order, x, y) ==> x in order && y in order
  {
  }

  /**
   Once the counter has wrapped, a request that is still queued is overtaken: the last number is
   queued in entry 0, the next request gets number 1, and is received first. Both states are ones
   the engine allows.
   */
  lemma WrappedCounterOvertakes(w: World, j: nat, i: nat, caller: Caller, rights: Rights, frame: Frame,
                                child: Option<TransferredCap>)
    requires Inv(w.core) && i < |w.core.ports| && j < |w.core.conns| && HasRoom(w.core, j, i, child.Some?)
    requires w.core.ports[i].live && w.core.conns[j].state.Open? && w.core.conns[j].port == Key(w.core, i)
    requires w.core.ports[i].nextSeq == 1 && w.core.ports[i].requests[0].seq_ == U64_MAX
    requires forall k :: 1 <= k < PORT_MAX_REQUEST_QUEUE_DEPTH ==> !w.core.ports[i].requests[k].IsLive()
    ensures Inv(Enqueue(w, j, i, caller, rights, frame, child).core)
    ensures var rs := Enqueue(w, j, i, caller, rights, frame, child).core.ports[i].requests;
            && rs[0] == w.core.ports[i].requests[0] && rs[1].frame == frame && rs[1].seq_ == 1
            && Precedes(Drain(rs), 1, 0) && !Precedes(Drain(rs), 0, 1)
  {
    hide Inv;
    EnqueueKeepsInv(w, j, i, caller, rights, frame, child);
    var old_ := w.core.ports[i].requests;
    assert !FREE_ENTRY(old_[0]) && FREE_ENTRY(old_[1]) && FindFirst(old_, FREE_ENTRY) == 1;
    var rs := Enqueue(w, j, i, caller, rights, frame, child).core.ports[i].requests;
    DrainIsByNumber(rs, 1, 0);
    DrainIsByNumber(rs, 0, 1);
  }
}
