/**
 The owed-effects list never overflows: every effect of one operation comes from a universe of
 at most four per port and one per connection, and every revoked transfer left a queue.
 */
module PortEffects {
  import opened Wrappers
  import opened SlotOps
  import opened Counting
  import opened PortTypes
  import opened PortSteps
  import opened PortInvariant

  // ---- the universe of effects ----

  function PortWakes(core: Core, i: nat): seq<Effect>
    requires i < |core.ports|
  {
    var key := Key(core, i);
    match core.ports[i].wake
    case None => [WakeServer(key), WakeSendSpace(key)]
    case Some(b) =>
      [WakeServer(key), WakeSendSpace(key), SignalBit(b.target, b.requestBit), SignalBit(b.target, b.noticeBit)]
  }

  function PortsWakes(core: Core, k: nat): (s: seq<Effect>)
    requires k <= |core.ports|
    ensures |s| <= 4 * k
  {
    if k == 0 then [] else PortsWakes(core, k - 1) + PortWakes(core, k - 1)
  }

  function ConnsWakes(core: Core): (s: seq<Effect>)
    ensures |s| == |core.conns|
  {
    seq(|core.conns|, j requires 0 <= j < |core.conns| => WakeConnection(ConnId(core, j)))
  }

  function Universe(core: Core): (u: set<Effect>) {
    set x | x in PortsWakes(core, |core.ports|) + ConnsWakes(core)
  }

  /** Everything an operation on `core` may push is in `u`. */
  predicate Covers(u: set<Effect>, core: Core) {
    && (forall i :: 0 <= i < |core.ports| ==> forall x :: x in PortWakes(core, i) ==> x in u)
    && (forall j :: 0 <= j < |core.conns| ==> WakeConnection(ConnId(core, j)) in u)
  }

  lemma {:induction false} SetOfSeqSize<T>(s: seq<T>)
    ensures |set x | x in s| <= |s|
  {
    if s != [] {
      var rest := s[..|s| - 1];
      SetOfSeqSize(rest);
      assert (set x | x in s) == (set x | x in rest) + {s[|s| - 1]};
    }
  }

  lemma {:induction false} PortsWakesHold(core: Core, i: nat, k: nat, x: Effect)
    requires i < k <= |core.ports| && x in PortWakes(core, i)
    ensures x in PortsWakes(core, k)
  {
    if i < k - 1 {
      PortsWakesHold(core, i, k - 1, x);
    }
  }

  lemma UniverseBound(core: Core)
    ensures |Universe(core)| <= 4 * |core.ports| + |core.conns|
    ensures Covers(Universe(core), core)
  {
    SetOfSeqSize(PortsWakes(core, |core.ports|) + ConnsWakes(core));
    forall i, x | 0 <= i < |core.ports| && x in PortWakes(core, i) ensures x in Universe(core) {
      PortsWakesHold(core, i, |core.ports|, x);
    }
    forall j | 0 <= j < |core.conns| ensures WakeConnection(ConnId(core, j)) in Universe(core) {
      assert ConnsWakes(core)[j] == WakeConnection(ConnId(core, j));
    }
  }

  // ---- pigeonhole ----

  predicate NoDuplicates<T(==)>(s: seq<T>) {
    forall a, b :: 0 <= a < b < |s| ==> s[a] != s[b]
  }

  /** Distinct wakes drawn from a universe that fits; nothing lost. */
  predicate Within(e: EffectList, u: set<Effect>) {
    && |u| <= EFFECTS_CAPACITY
    && NoDuplicates(e.items) && (forall x :: x in e.items ==> x in u)
    && !e.overflowed
  }

  lemma PushWithin(e: EffectList, u: set<Effect>, x: Effect)
    requires Within(e, u) && x in u
    ensures Within(e.Push(x), u) && e.Push(x).revoked == e.revoked
  {
    if x !in e.items {
      var more := e.items + [x];
      assert NoDuplicates(more);
      forall k | 0 <= k < |more| ensures more[k] in u { assert k < |e.items| ==> e.items[k] in e.items; }
      DistinctFit(more, u);
    }
  }

  lemma PushSignalWithin(e: EffectList, u: set<Effect>, core: Core, i: nat, notice: bool)
    requires Within(e, u) && Covers(u, core) && i < |core.ports|
    ensures Within(e.PushSignal(core.ports[i].wake, notice), u)
    ensures e.PushSignal(core.ports[i].wake, notice).revoked == e.revoked
  {
    match core.ports[i].wake {
      case None =>
      case Some(b) =>
        var x := SignalBit(b.target, if notice then b.noticeBit else b.requestBit);
        assert x == PortWakes(core, i)[if notice then 3 else 2];
        PushWithin(e, u, x);
    }
  }

  // ---- transfers leave the queues before they are noted ----

  function Total(ports: seq<Port>): nat {
    if ports == [] then 0 else Total(ports[..|ports| - 1]) + Count(ports[|ports| - 1].requests, CARRIES)
  }

  lemma {:induction false} TotalUpdate(ports: seq<Port>, i: nat, q: Port)
    requires i < |ports|
    ensures Total(ports[i := q]) + Count(ports[i].requests, CARRIES) == Total(ports) + Count(q.requests, CARRIES)
  {
    var n := |ports| - 1;
    if i == n {
      assert ports[i := q][..n] == ports[..n];
    } else {
      TotalUpdate(ports[..n], i, q);
      assert ports[i := q][..n] == ports[..n][i := q];
    }
  }

  lemma {:induction false} TotalBound(core: Core, k: nat)
    requires Inv(core) && k <= |core.ports|
    ensures Total(core.ports[..k]) <= PORT_MAX_TRANSFERS_IN_FLIGHT * k
  {
    if k > 0 {
      TotalBound(core, k - 1);
      assert core.ports[..k][..k - 1] == core.ports[..k - 1];
      assert PortOk(core, k - 1);
      if !core.ports[k - 1].live { CountZero(core.ports[k - 1].requests, CARRIES); }
    }
  }

  /** The wakes fit, and so would the note of every transfer still queued. */
  predicate EffectsOk(w: World, u: set<Effect>) {
    && Within(w.effects, u) && Covers(u, w.core)
    && |w.effects.revoked| + Total(w.core.ports) <= PORT_MAX_TRANSFERS_IN_FLIGHT * |w.core.ports|
    && PORT_MAX_TRANSFERS_IN_FLIGHT * |w.core.ports| <= REVOKED_TRANSFERS_CAPACITY
  }

  lemma {:induction false} ReleaseChildrenNotes(table: Slots, effects: EffectList, rs: RequestPool,
                                                p: Request -> bool, carried: Request -> bool, k: nat)
    requires k <= |rs| && forall r: Request :: carried(r) == (p(r) && r.transfer.Some?)
    requires !effects.overflowed && |effects.revoked| + Count(rs[..k], carried) <= REVOKED_TRANSFERS_CAPACITY
    ensures var e := ReleaseChildren(table, effects, rs, p, k).1;
            && !e.overflowed && e.items == effects.items
            && |e.revoked| <= |effects.revoked| + Count(rs[..k], carried)
  {
    if k > 0 {
      assert rs[..k][..k - 1] == rs[..k - 1];
      ReleaseChildrenNotes(table, effects, rs, p, carried, k - 1);
    }
  }

  lemma PurgeEffects(w: World, i: nat, j: nat, u: set<Effect>)
    requires EffectsOk(w, u) && i < |w.core.ports| && j < |w.core.conns|
    ensures EffectsOk(Purge(w, i, j), u)
  {
    var p := w.core.ports[i];
    var id := ConnId(w.core, j);
    var after := Purge(w, i, j);
    ClearedCounts(p.requests, id);
    TotalUpdate(w.core.ports, i, after.core.ports[i]);
    assert p.requests[..|p.requests|] == p.requests;
    ReleaseChildrenNotes(w.table, w.effects, p.requests, OfConn(id), CarriesFor(id), |p.requests|);
    SameWakes(w.core, after.core, u);
  }

  /** The same ids and keys, and no new wake binding. */
  predicate SameIds(a: Core, b: Core) {
    && |a.ports| == |b.ports| && |a.conns| == |b.conns|
    && (forall i :: 0 <= i < |a.ports| ==>
          && a.ports[i].generation == b.ports[i].generation
          && (b.ports[i].wake == a.ports[i].wake || b.ports[i].wake.None?))
    && (forall j :: 0 <= j < |a.conns| ==> a.conns[j].generation == b.conns[j].generation)
  }

  lemma SameWakes(a: Core, b: Core, u: set<Effect>)
    requires SameIds(a, b) && Covers(u, a)
    ensures Covers(u, b)
  {
    forall i, x | 0 <= i < |b.ports| && x in PortWakes(b, i) ensures x in u {
      assert PortWakes(b, i) <= PortWakes(a, i);
    }
    forall j | 0 <= j < |b.conns| ensures WakeConnection(ConnId(b, j)) in u {
      assert WakeConnection(ConnId(a, j)) in u;
    }
  }

  lemma {:induction false} SameTotal(a: seq<Port>, b: seq<Port>)
    requires |a| == |b| && forall i :: 0 <= i < |a| ==> a[i].requests == b[i].requests
    ensures Total(a) == Total(b)
  {
    if a != [] {
      SameTotal(a[..|a| - 1], b[..|a| - 1]);
    }
  }

  /** A change that keeps ids and queues, pushing one or two covered effects. */
  lemma KeepEffectsOk(w: World, core: Core, u: set<Effect>, e: EffectList)
    requires EffectsOk(w, u) && SameIds(w.core, core)
    requires forall i :: 0 <= i < |core.ports| ==> core.ports[i].requests == w.core.ports[i].requests
    requires Within(e, u) && e.revoked == w.effects.revoked
    ensures EffectsOk(World(core, w.table, e), u)
  {
    SameWakes(w.core, core, u);
    SameTotal(w.core.ports, core.ports);
  }

  lemma CoversKey(u: set<Effect>, core: Core, i: nat)
    requires Covers(u, core) && i < |core.ports|
    ensures WakeServer(Key(core, i)) in u && WakeSendSpace(Key(core, i)) in u
  {
    var s := PortWakes(core, i);
    assert s[0] == WakeServer(Key(core, i)) && s[1] == WakeSendSpace(Key(core, i));
  }

  lemma BeginCloseEffects(w: World, j: nat, kind: RecvKind, reason: u32, u: set<Effect>)
    requires EffectsOk(w, u) && j < |w.core.conns|
    ensures EffectsOk(BeginClose(w, j, kind, reason), u)
  {
    var key := w.core.conns[j].port;
    if PortLive(w.core, key) {
      var i := key.slot;
      var w1 := Purge(w, i, j);
      PurgeEffects(w, i, j, u);
      CoversKey(u, w1.core, i);
      var e1 := w1.effects.Push(WakeServer(key));
      PushWithin(w1.effects, u, WakeServer(key));
      PushSignalWithin(e1, u, w1.core, i, true);
      var e2 := e1.PushSignal(w1.core.ports[i].wake, true);
      PushWithin(e2, u, WakeSendSpace(key));
      var e3 := e2.Push(WakeSendSpace(key));
      assert WakeConnection(ConnId(w1.core, j)) in u;
      PushWithin(e3, u, WakeConnection(ConnId(w1.core, j)));
      KeepEffectsOk(w1, BeginClose(w, j, kind, reason).core, u, e3.Push(WakeConnection(ConnId(w1.core, j))));
    }
  }

  lemma EndByServerEffects(w: World, i: nat, j: nat, reason: u32, u: set<Effect>)
    requires EffectsOk(w, u) && i < |w.core.ports| && j < |w.core.conns|
    ensures EffectsOk(EndByServer(w, i, j, reason), u)
  {
    var w1 := Purge(w, i, j);
    PurgeEffects(w, i, j, u);
    CoversKey(u, w1.core, i);
    assert WakeConnection(ConnId(w1.core, j)) in u;
    PushWithin(w1.effects, u, WakeConnection(ConnId(w1.core, j)));
    var e1 := w1.effects.Push(WakeConnection(ConnId(w1.core, j)));
    PushWithin(e1, u, WakeSendSpace(Key(w1.core, i)));
    KeepEffectsOk(w1, EndByServer(w, i, j, reason).core, u, e1.Push(WakeSendSpace(Key(w1.core, i))));
  }

  lemma ConsumeTerminalEffects(w: World, j: nat, u: set<Effect>)
    requires EffectsOk(w, u) && j < |w.core.conns|
    ensures EffectsOk(ConsumeTerminal(w, j), u)
  {
    assert WakeConnection(ConnId(w.core, j)) in u;
    PushWithin(w.effects, u, WakeConnection(ConnId(w.core, j)));
    KeepEffectsOk(w, ConsumeTerminal(w, j).core, u, ConsumeTerminal(w, j).effects);
  }

  lemma TeardownConnEffects(core: Core, effects: EffectList, i: nat, key: PortKey, j: nat, u: set<Effect>)
    requires i < |core.ports| && j < |core.conns| && Within(effects, u) && WakeConnection(ConnId(core, j)) in u
    ensures Within(TeardownConn(core, effects, i, key, j).1, u)
    ensures TeardownConn(core, effects, i, key, j).1.revoked == effects.revoked
  {
    PushWithin(effects, u, WakeConnection(ConnId(core, j)));
  }

  lemma {:induction false} TeardownConnsEffects(core: Core, effects: EffectList, i: nat, key: PortKey, k: nat,
                                                u: set<Effect>)
    requires i < |core.ports| && k <= |core.conns| && Within(effects, u)
    requires forall j :: 0 <= j < |core.conns| ==> WakeConnection(ConnId(core, j)) in u
    ensures var r := TeardownConns(core, effects, i, key, k);
            Within(r.1, u) && r.1.revoked == effects.revoked
  {
    if k > 0 {
      TeardownConnsEffects(core, effects, i, key, k - 1, u);
      TeardownConnsShape(core, effects, i, key, k - 1);
      var r := TeardownConns(core, effects, i, key, k - 1);
      assert ConnId(r.0, k - 1) == ConnId(core, k - 1);
      TeardownConnEffects(r.0, r.1, i, key, k - 1, u);
    }
  }

  /** The queue of port `i` dropped, its children released. */
  function Emptied(w: World, i: nat): World
    requires i < |w.core.ports|
  {
    var p := w.core.ports[i];
    var released := ReleaseChildren(w.table, w.effects, p.requests, LIVE, |p.requests|);
    World(Core(w.core.ports[i := p.(requests := EmptyPool(), transfersInFlight := 0)], w.core.conns), released.0,
          released.1)
  }

  lemma EmptiedEffects(w: World, i: nat, u: set<Effect>)
    requires EffectsOk(w, u) && i < |w.core.ports|
    ensures EffectsOk(Emptied(w, i), u)
  {
    hide ReleaseChildren;
    var p := w.core.ports[i];
    var after := Emptied(w, i);
    TotalUpdate(w.core.ports, i, after.core.ports[i]);
    CountZero(EmptyPool(), CARRIES);
    assert p.requests[..|p.requests|] == p.requests;
    ReleaseChildrenNotes(w.table, w.effects, p.requests, LIVE, CARRIES, |p.requests|);
    SameWakes(w.core, after.core, u);
  }

  lemma TeardownDrainEffects(w: World, i: nat, u: set<Effect>)
    requires EffectsOk(w, u) && i < |w.core.ports|
    ensures EffectsOk(TeardownDrain(w, i), u)
  {
    hide ReleaseChildren, TeardownConns;
    var after := Emptied(w, i);
    EmptiedEffects(w, i, u);
    TeardownConnsEffects(after.core, after.effects, i, Key(w.core, i), |w.core.conns|, u);
    TeardownConnsShape(after.core, after.effects, i, Key(w.core, i), |w.core.conns|);
    KeepEffectsOk(after, TeardownDrain(w, i).core, u, TeardownDrain(w, i).effects);
  }

  lemma TeardownEffects(w: World, i: nat, u: set<Effect>)
    requires EffectsOk(w, u) && i < |w.core.ports|
    ensures EffectsOk(Teardown(w, i), u)
  {
    var w1 := TeardownDrain(w, i);
    var key := Key(w.core, i);
    TeardownDrainEffects(w, i, u);
    CoversKey(u, w.core, i);
    PushWithin(w1.effects, u, WakeSendSpace(key));
    PushWithin(w1.effects.Push(WakeSendSpace(key)), u, WakeServer(key));
    KeepEffectsOk(w1, Teardown(w, i).core, u, Teardown(w, i).effects);
  }

  lemma {:induction false} ExitPortsEffects(w: World, holder: u64, generation: u64, k: nat, u: set<Effect>)
    requires EffectsOk(w, u) && k <= |w.core.ports|
    ensures EffectsOk(ExitPorts(w, holder, generation, k), u)
  {
    if k > 0 {
      ExitPortsEffects(w, holder, generation, k - 1, u);
      TeardownEffects(ExitPorts(w, holder, generation, k - 1), k - 1, u);
    }
  }

  lemma {:induction false} ExitConnsEffects(w: World, holder: u64, generation: u64, k: nat, u: set<Effect>)
    requires EffectsOk(w, u) && k <= |w.core.conns|
    ensures EffectsOk(ExitConns(w, holder, generation, k), u)
  {
    if k > 0 {
      ExitConnsEffects(w, holder, generation, k - 1, u);
      ExitConnEffects(ExitConns(w, holder, generation, k - 1), holder, generation, k - 1, u);
    }
  }

  lemma ExitConnEffects(w: World, holder: u64, generation: u64, j: nat, u: set<Effect>)
    requires EffectsOk(w, u) && j < |w.core.conns|
    ensures EffectsOk(ExitConn(w, holder, generation, j), u)
  {
    if w.core.conns[j].state.Open? {
      BeginCloseEffects(w, j, ClientExited, 0, u);
    } else {
      ConsumeTerminalEffects(w, j, u);
    }
  }

  // ---- bounds of one whole operation ----

  /** The sizes the engine asserts when it is created. */
  predicate SizesFit(core: Core) {
    && 4 * |core.ports| + |core.conns| <= EFFECTS_CAPACITY
    && PORT_MAX_TRANSFERS_IN_FLIGHT * |core.ports| <= REVOKED_TRANSFERS_CAPACITY
  }

  /** No effect was lost, and the list is within the stated bounds. */
  predicate Bounded(w: World) {
    && !w.effects.overflowed
    && |w.effects.items| <= 4 * |w.core.ports| + |w.core.conns|
    && |w.effects.revoked| <= PORT_MAX_TRANSFERS_IN_FLIGHT * |w.core.ports|
  }

  lemma StartEffectsOk(core: Core, table: Slots)
    requires Inv(core) && SizesFit(core)
    ensures EffectsOk(World(core, table, NO_EFFECTS), Universe(core))
  {
    UniverseBound(core);
    TotalBound(core, |core.ports|);
    assert core.ports[..|core.ports|] == core.ports;
  }

  lemma WithinIsBounded(w: World, core: Core)
    requires |core.ports| == |w.core.ports| && |core.conns| == |w.core.conns|
    requires Within(w.effects, Universe(core)) && |w.effects.revoked| <= PORT_MAX_TRANSFERS_IN_FLIGHT * |w.core.ports|
    ensures Bounded(w)
  {
    UniverseBound(core);
    forall k | 0 <= k < |w.effects.items| ensures w.effects.items[k] in Universe(core) {
      assert w.effects.items[k] in w.effects.items;
    }
    DistinctFit(w.effects.items, Universe(core));
  }
}
