/**
 How a table may change over time, whatever operations run: generations only grow, retired slots
 stay retired, and a record that keeps its generation keeps its identity. Handle uniqueness and
 the finality of release follow for every run.
 */
module Aging {
  import opened Wrappers
  import opened Capability
  import opened SlotOps

  /** What one slot may turn into. */
  predicate Aged(r: Record, q: Record) {
    && r.generation <= q.generation
    && (r.state.Retired? ==> q.state.Retired?)
    && (r.generation == q.generation ==>
          match r.state
          case Empty => q.state.Empty? || q.state.Retired?
          case Retired => true
          case _ => q.state.Retired? || SameCapability(r, q))
  }

  /** The same capability, possibly revoked since. */
  predicate SameCapability(r: Record, q: Record) {
    && q.holder == r.holder && q.resource == r.resource && q.provenance == r.provenance
    && q.rights <= r.rights
    && (q.state.Revoked? || (q.state.Live? && r.state.Live?))
  }

  predicate Ages(s: Slots, t: Slots) {
    |s| == |t| && forall i :: 0 <= i < |s| ==> Aged(s[i], t[i])
  }

  lemma AgesTransitive(s: Slots, t: Slots, u: Slots)
    requires Ages(s, t) && Ages(t, u)
    ensures Ages(s, u)
  {
    forall i | 0 <= i < |s| ensures Aged(s[i], u[i]) {
      assert Aged(s[i], t[i]) && Aged(t[i], u[i]);
    }
  }

  lemma AgesReflexive(s: Slots)
    ensures Ages(s, s)
  {
  }

  // ---- every operation ages the table ----

  lemma RevokeHandleAges(s: Slots, h: SlotId)
    ensures Ages(s, RevokeHandle(s, h).0)
  {
    AgesReflexive(s);
  }

  lemma InstallAges(s: Slots, r: Record)
    ensures Ages(s, Install(s, r).0)
    ensures Install(s, r).1.Success? ==> Issues(s, Install(s, r).0, Install(s, r).1.value)
  {
  }

  lemma RevokeAges(s: Slots, which: set<nat>)
    ensures Ages(s, RevokeAll(s, which))
    ensures Ages(s, ReleaseAll(s, which))
    ensures Ages(s, DropAll(s, which))
  {
    AgesTransitive(s, RevokeAll(s, which * LiveSet(s)), DropAll(s, which));
  }

  // ---- handles over a run ----

  /** `h` is issued between `s` and `t`: newer than anything its slot held. */
  predicate Issues(s: Slots, t: Slots, h: SlotId) {
    h.slot < |s| && s[h.slot].generation < h.generation && Resolves(t, h)
  }

  /** `h` names an occupant of its slot that is gone. */
  predicate Spent(s: Slots, h: SlotId) {
    && h.slot < |s| && h.generation <= s[h.slot].generation
    && !Resolves(s, h)
  }

  /** A run: each state ages into the next, and `issued[k]` is what step `k` issued. */
  predicate History(states: seq<Slots>, issued: seq<Option<SlotId>>) {
    && |states| == |issued| + 1
    && (forall k :: 0 <= k < |issued| ==> Ages(states[k], states[k + 1]))
    && (forall k :: 0 <= k < |issued| && issued[k].Some? ==> Issues(states[k], states[k + 1], issued[k].value))
  }

  lemma {:induction false} RunAges(states: seq<Slots>, issued: seq<Option<SlotId>>, j: nat, k: nat)
    requires History(states, issued) && j <= k < |states|
    ensures Ages(states[j], states[k])
    decreases k - j
  {
    if j < k {
      RunAges(states, issued, j, k - 1);
      AgesTransitive(states[j], states[k - 1], states[k]);
    }
  }

  lemma SpentStays(s: Slots, t: Slots, h: SlotId)
    requires Ages(s, t) && Spent(s, h)
    ensures Spent(t, h)
  {
    assert Aged(s[h.slot], t[h.slot]);
  }

  /** No handle is issued twice in a run. */
  lemma NeverReissued(states: seq<Slots>, issued: seq<Option<SlotId>>, j: nat, k: nat)
    requires History(states, issued) && j < k < |issued| && issued[j].Some? && issued[k].Some?
    ensures issued[j] != issued[k]
  {
    RunAges(states, issued, j + 1, k);
    var h := issued[j].value;
    assert Issues(states[j], states[j + 1], h) && Issues(states[k], states[k + 1], issued[k].value);
    assert h.slot < |states[j + 1]| && h.slot < |states[k]| && Aged(states[j + 1][h.slot], states[k][h.slot]);
  }

  /** Once an issued handle stops resolving, it never resolves or authorizes again. */
  lemma ReleasedIsFinal(states: seq<Slots>, issued: seq<Option<SlotId>>, i: nat, j: nat, k: nat,
                        holder: u64, resource: ResourceRef, required: Rights)
    requires History(states, issued) && i < j <= k < |states| && issued[i].Some?
    requires !Resolves(states[j], issued[i].value)
    ensures !Resolves(states[k], issued[i].value)
    ensures AuthorizeAt(states[k], holder, issued[i].value, resource, required).Failure?
  {
    var h := issued[i].value;
    assert Issues(states[i], states[i + 1], h);
    RunAges(states, issued, i + 1, j);
    assert Aged(states[i + 1][h.slot], states[j][h.slot]);
    RunAges(states, issued, j, k);
    SpentStays(states[j], states[k], h);
  }

  /** While it resolves, a handle names the capability it was issued for. */
  lemma ResolvesToSame(s: Slots, t: Slots, h: SlotId)
    requires Ages(s, t) && Resolves(s, h) && Resolves(t, h)
    ensures SameCapability(s[h.slot], t[h.slot])
  {
    assert Aged(s[h.slot], t[h.slot]);
  }
}
