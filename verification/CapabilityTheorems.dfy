/** What revocation achieves on a well-formed table, slot by slot. */
module CapabilityTheorems {
  import opened Wrappers
  import opened Capability
  import opened SlotOps
  import opened Forest
  import opened Marking

  /** Revoking a subtree revokes exactly the target and its Live descendants. */
  lemma SubtreeRevokedExactly(s: Slots, h: SlotId)
    requires WellFormed(s) && Resolves(s, h)
    ensures var (t, r) := RevokeSubtree(s, h);
            && r.Success? && r.value == |LiveSet(s)| - |LiveSet(t)|
            && WellFormed(t) && |t| == |s|
            && (forall i :: 0 <= i < |s| ==>
                  if s[i].state.Live? && Descends(s, h.slot, i) then t[i] == RevokedRecord(s[i]) else t[i] == s[i])
            && (forall i :: 0 <= i < |t| && t[i].state.Live? ==> !Descends(t, h.slot, i))
  {
    SubtreeOnForest(s, h);
    hide RevokeSubtree;
    var t := RevokeSubtree(s, h).0;
    SubtreeClosed(s, h.slot);
    RevokeAllKeepsForest(s, Subtree(s, h.slot));
    LiveDrop(s, Subtree(s, h.slot));
    forall i | 0 <= i < |t| && t[i].state.Live? ensures !Descends(t, h.slot, i) {
      DescendsAfterRevoke(s, Subtree(s, h.slot), h.slot, i);
    }
  }

  /** Revoking again revokes nothing more. */
  lemma RevokeSubtreeIdempotent(s: Slots, h: SlotId)
    requires WellFormed(s) && Resolves(s, h)
    ensures var t := RevokeSubtree(s, h).0;
            RevokeSubtree(t, h) == (t, Success(0))
  {
    hide WellFormed, Descends, RevokeAll, RevokeSubtree;
    SubtreeRevokedExactly(s, h);
    SubtreeOnForest(RevokeSubtree(s, h).0, h);
    var t := RevokeSubtree(s, h).0;
    assert LiveSet(t) * Subtree(t, h.slot) == {};
    RevokeNone(t, Subtree(t, h.slot));
  }

  lemma RevokeNone(s: Slots, which: set<nat>)
    requires LiveSet(s) * which == {}
    ensures RevokeAll(s, which) == s
  {
    forall i | 0 <= i < |s| && i in which ensures !s[i].state.Live? {
      assert i !in LiveSet(s) * which;
    }
  }

  lemma ReleaseKeepsLive(s: Slots, which: set<nat>)
    ensures LiveSet(ReleaseAll(s, which)) == LiveSet(s)
  {
  }

  /** Revoking `a` and then releasing `b`, one slot at a time. */
  function TreeSlot(r: Record, revoke: bool, release: bool): Record {
    var q := if revoke && r.state.Live? then RevokedRecord(r) else r;
    if release && q.state.Revoked? then ReleasedRecord(q) else q
  }

  lemma RevokeThenRelease(s: Slots, a: set<nat>, b: set<nat>)
    ensures var t := ReleaseAll(RevokeAll(s, a), b);
            && |t| == |s| && (forall i :: 0 <= i < |s| ==> t[i] == TreeSlot(s[i], i in a, i in b))
            && |LiveSet(s)| - |LiveSet(t)| == |LiveSet(s) * a|
  {
    ReleaseKeepsLive(RevokeAll(s, a), b);
    LiveDrop(s, a);
  }

  /** After a holder exits, a record survives iff nobody on its chain of ancestors was that holder. */
  lemma HolderTreeRevokedExactly(s: Slots, holder: u64)
    requires WellFormed(s)
    ensures var (t, n) := RevokeHolderTree(s, holder);
            && WellFormed(t) && |t| == |s| && n == |LiveSet(s)| - |LiveSet(t)|
            && (forall i :: 0 <= i < |s| && s[i].state.Live? ==>
                  && (t[i] == s[i] <==> !HeldOnChain(s, holder, i))
                  && (t[i].state.Live? <==> !HeldOnChain(s, holder, i))
                  && (HeldOnChain(s, holder, i) && s[i].holder != holder ==> t[i] == RevokedRecord(s[i])))
            && (forall i :: 0 <= i < |t| && (t[i].state.Live? || t[i].state.Revoked?) ==> t[i].holder != holder)
            && (forall i :: 0 <= i < |s| && !s[i].state.Live? && s[i].holder != holder ==> t[i] == s[i])
  {
    hide WellFormed, DownwardClosed, RevokeAll, ReleaseAll, RevokeHolderTree, HeldOnChain, LiveSet;
    HolderTreeOnForest(s, holder);
    HolderTreeForest(s, holder);
    var gone := ChainHeldBy(s, holder);
    RevokeThenRelease(s, gone, HeldBy(s, holder));
    ChainIsLive(s, holder);
  }

  lemma ChainIsLive(s: Slots, holder: u64)
    ensures LiveSet(s) * ChainHeldBy(s, holder) == ChainHeldBy(s, holder)
    ensures forall i :: 0 <= i < |s| && s[i].state.Live? && s[i].holder == holder ==> i in ChainHeldBy(s, holder)
  {
  }

  lemma HolderTreeForest(s: Slots, holder: u64)
    requires WellFormed(s)
    ensures WellFormed(ReleaseAll(RevokeAll(s, ChainHeldBy(s, holder)), HeldBy(s, holder)))
  {
    hide WellFormed, DownwardClosed, RevokeAll, ReleaseAll;
    ChainClosed(s, holder);
    RevokeAllKeepsForest(s, ChainHeldBy(s, holder));
    ReleaseAllKeepsForest(RevokeAll(s, ChainHeldBy(s, holder)), HeldBy(s, holder));
  }

  /** After a resource tree is revoked, no Live or Revoked record names the resource. */
  lemma ResourceTreeRevokedExactly(s: Slots, c: ResourceClass, id: u64)
    requires WellFormed(s)
    ensures var (t, n) := RevokeResourceTree(s, c, id);
            && WellFormed(t) && |t| == |s| && n == |LiveSet(s)| - |LiveSet(t)|
            && (forall i :: 0 <= i < |t| && (t[i].state.Live? || t[i].state.Revoked?) ==>
                  !(t[i].resource.class_ == c && t[i].resource.id == id))
            && (forall i :: 0 <= i < |s| && !(s[i].resource.class_ == c && s[i].resource.id == id) ==> t[i] == s[i])
  {
    hide WellFormed, DownwardClosed, RevokeAll, ReleaseAll, RevokeResourceTree;
    ResourceTreeOnForest(s, c, id);
    var gone := NamingId(s, c, id);
    NamingClosed(s, gone, ResourceRef(c, id, 0), c, id);
    RevokeAllKeepsForest(s, gone);
    ReleaseAllKeepsForest(RevokeAll(s, gone), gone);
    RevokeThenRelease(s, gone, gone);
  }

  /** A Live handle's chain of ancestors, from itself to its root, is at most five records long. */
  function Chain(s: Slots, i: nat): (c: seq<nat>)
    requires i < |s|
    ensures |c| <= s[i].provenance.depth + 1
    decreases s[i].provenance.depth
  {
    if HasParent(s, i) then [i] + Chain(s, ParentSlot(s, i)) else [i]
  }

  /** Holding a right anywhere in the forest implies the root of the chain holds it too. */
  lemma {:induction false} AuthorityComesFromRoot(s: Slots, i: nat)
    requires WellFormed(s) && i < |s| && s[i].state.Live?
    ensures var root := Chain(s, i)[|Chain(s, i)| - 1];
            && |Chain(s, i)| <= MAX_DELEGATION_DEPTH + 1
            && root < |s| && s[root].state.Live? && s[root].provenance.parent.None?
            && s[i].rights <= s[root].rights && s[i].resource == s[root].resource
            && s[i].provenance.rootHolder == s[root].provenance.rootHolder
            && (i != root ==> s[i].rights !! RootOnlyFor(s[i].resource.class_) && Delegate in s[root].rights)
    decreases s[i].provenance.depth
  {
    assert Attached(s, i);
    if s[i].provenance.parent.Some? {
      ParentLives(s, i);
      var p := ParentSlot(s, i);
      AuthorityComesFromRoot(s, p);
      assert Chain(s, i)[1..] == Chain(s, p);
    }
  }
}
