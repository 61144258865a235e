/**
 What a sweep revokes on tables that have lost the forest, where parents may be Revoked or gone: the
 Live subtrees of the matching records, and so exactly when a holder's exit leaves nothing of it Live.
 */
module SweptTrees {
  import opened Wrappers
  import opened Capability
  import opened SlotOps
  import opened Marking

  lemma {:induction false} DescendsTransitive(s: Slots, a: nat, b: nat, k: nat)
    requires b < |s| && k < |s| && Descends(s, a, b) && Descends(s, b, k)
    ensures Descends(s, a, k)
    decreases s[k].provenance.depth
  {
    if k != b { DescendsTransitive(s, a, b, ParentSlot(s, k)); }
  }

  /** Slot `k` is in the subtree of a matching record in a slot from `lo` up to `hi`. */
  predicate FallsTo(s: Slots, p: Record -> bool, lo: nat, hi: nat, k: nat)
    requires k < |s|
  {
    exists j: nat :: lo <= j < hi && Head(s, p, j) && Descends(s, j, k)
  }

  function Fallen(s: Slots, p: Record -> bool, lo: nat, hi: nat): set<nat> {
    set k: nat | k < |s| && s[k].state.Live? && FallsTo(s, p, lo, hi, k)
  }

  /** No orphan is in the table, or only the record the sweep starts from. */
  ghost predicate Sweepable(s: Slots, p: Record -> bool, lo: nat) {
    forall i: nat :: Orphan(s, i) ==> i == lo && Head(s, p, lo)
  }

  lemma RevokeAllRevokesSome(s: Slots, which: set<nat>)
    ensures RevokedSome(s, RevokeAll(s, which))
  {
  }

  /** A revoked record still resolves, so the links of those still Live are what they were. */
  lemma SameLinks(s: Slots, t: Slots, k: nat)
    requires RevokedSome(s, t) && k < |s|
    ensures t[k].provenance == s[k].provenance && (HasParent(t, k) <==> HasParent(s, k))
    ensures DepthOk(t, k) <==> DepthOk(s, k)
  {
    if s[k].provenance.parent.Some? {
      var h := s[k].provenance.parent.value;
      assert Resolves(t, h) <==> Resolves(s, h);
    }
  }

  lemma RevokingKeepsDepths(s: Slots, t: Slots)
    requires DepthsOk(s) && RevokedSome(s, t)
    ensures DepthsOk(t)
  {
    forall i | 0 <= i < |t| && t[i].state.Live? ensures DepthOk(t, i) { SameLinks(s, t, i); }
  }

  // ---- one step of a sweep ----

  lemma FallsOneMore(s: Slots, p: Record -> bool, lo: nat, k: nat, x: nat)
    requires x < |s| && lo <= k
    ensures FallsTo(s, p, lo, k + 1, x) <==> FallsTo(s, p, lo, k, x) || (Head(s, p, k) && Descends(s, k, x))
  {
  }

  /** What falls takes its subtree along. */
  lemma FallenIsClosed(s: Slots, p: Record -> bool, lo: nat, hi: nat, a: nat, k: nat)
    requires a < |s| && k < |s| && FallsTo(s, p, lo, hi, a) && Descends(s, a, k)
    ensures FallsTo(s, p, lo, hi, k)
  {
    var j: nat :| lo <= j < hi && Head(s, p, j) && Descends(s, j, a);
    DescendsTransitive(s, j, a, k);
  }

  /** Revoking trees that do not hold `k` leaves `k` in the subtrees it was in. */
  lemma {:induction false} DescendsAfter(s: Slots, p: Record -> bool, lo: nat, hi: nat, a: nat, k: nat)
    requires k < |s| && s[k].state.Live? && !FallsTo(s, p, lo, hi, k)
    ensures Descends(RevokeAll(s, Fallen(s, p, lo, hi)), a, k) <==> Descends(s, a, k)
    decreases s[k].provenance.depth
  {
    var t := RevokeAll(s, Fallen(s, p, lo, hi));
    RevokeAllRevokesSome(s, Fallen(s, p, lo, hi));
    SameLinks(s, t, k);
    if k != a && HasParent(s, k) {
      var y := ParentSlot(s, k);
      if FallsTo(s, p, lo, hi, y) { FallenIsClosed(s, p, lo, hi, y, k); }
      if s[y].state.Live? { DescendsAfter(s, p, lo, hi, a, y); }
    }
  }

  lemma OnlyRootOrphaned(s: Slots, p: Record -> bool, lo: nat, k: nat)
    requires lo <= k < |s| && Sweepable(s, p, lo)
    ensures OrphanOnly(RevokeAll(s, Fallen(s, p, lo, k)), k)
  {
    hide Orphan;
    var t := RevokeAll(s, Fallen(s, p, lo, k));
    RevokeAllRevokesSome(s, Fallen(s, p, lo, k));
    assert lo < k && Head(s, p, lo) ==> Descends(s, lo, lo) && lo in Fallen(s, p, lo, k);
    forall i: nat | Orphan(t, i) ensures i == k { OrphansShrink(s, t, i); }
  }

  lemma FallOne(s: Slots, p: Record -> bool, lo: nat, k: nat)
    requires DepthsOk(s) && lo <= k < |s| && Sweepable(s, p, lo)
    requires Head(RevokeAll(s, Fallen(s, p, lo, k)), p, k)
    ensures RevokeAtSlot(RevokeAll(s, Fallen(s, p, lo, k)), k).0 == RevokeAll(s, Fallen(s, p, lo, k + 1))
  {
    hide RevokeSubtree, DepthsOk, Sweepable, OrphanOnly, RevokeAll, Fallen, LiveSet;
    var t := RevokeAll(s, Fallen(s, p, lo, k));
    RevokeAllRevokesSome(s, Fallen(s, p, lo, k));
    RevokingKeepsDepths(s, t);
    OnlyRootOrphaned(s, p, lo, k);
    LiveResolves(t, k);
    SubtreeRevokedIs(t, SlotId(k, t[k].generation));
    FallSame(s, p, lo, k);
  }

  lemma FallSame(s: Slots, p: Record -> bool, lo: nat, k: nat)
    requires lo <= k < |s| && Head(RevokeAll(s, Fallen(s, p, lo, k)), p, k)
    ensures var t := RevokeAll(s, Fallen(s, p, lo, k));
            RevokeAll(t, Subtree(t, k)) == RevokeAll(s, Fallen(s, p, lo, k + 1))
  {
    hide Descends, FallsTo;
    var t := RevokeAll(s, Fallen(s, p, lo, k));
    forall x | 0 <= x < |s|
      ensures RevokeAll(t, Subtree(t, k))[x] == RevokeAll(s, Fallen(s, p, lo, k + 1))[x]
    {
      FallsOneMore(s, p, lo, k, x);
      if s[x].state.Live? && !FallsTo(s, p, lo, k, x) { DescendsAfter(s, p, lo, k, k, x); }
    }
  }

  /** A record that does not match, or has fallen already, adds nothing. */
  lemma FallNone(s: Slots, p: Record -> bool, lo: nat, k: nat)
    requires lo <= k < |s| && !Head(RevokeAll(s, Fallen(s, p, lo, k)), p, k)
    ensures Fallen(s, p, lo, k + 1) == Fallen(s, p, lo, k)
  {
    forall x: nat | x < |s| ensures FallsTo(s, p, lo, k + 1, x) <==> FallsTo(s, p, lo, k, x) {
      FallsOneMore(s, p, lo, k, x);
      if Head(s, p, k) && Descends(s, k, x) { FallenIsClosed(s, p, lo, k, k, x); }
    }
  }

  lemma NoneFallen(s: Slots, p: Record -> bool, lo: nat)
    ensures RevokeAll(s, Fallen(s, p, lo, lo)) == s
  {
  }

  // ---- whole sweeps ----

  /** A sweep revokes exactly the subtrees of the records that matched before it, and counts them. */
  lemma {:induction false} SweepFells(s: Slots, p: Record -> bool, lo: nat, hi: nat)
    requires DepthsOk(s) && lo <= hi <= |s| && Sweepable(s, p, lo)
    ensures Sweep(s, p, lo, hi) == (RevokeAll(s, Fallen(s, p, lo, hi)), |Fallen(s, p, lo, hi)|)
    decreases hi
  {
    hide RevokeAtSlot, DepthsOk, Fallen, Sweepable, RevokeAll, LiveSet;
    if hi == lo {
      NoneFallen(s, p, lo);
    } else {
      SweepFells(s, p, lo, hi - 1);
      if Head(RevokeAll(s, Fallen(s, p, lo, hi - 1)), p, hi - 1) {
        FallOne(s, p, lo, hi - 1);
      } else {
        FallNone(s, p, lo, hi - 1);
      }
    }
    SweepCounts(s, p, lo, hi);
    FallenDrop(s, p, lo, hi);
  }

  lemma FallenDrop(s: Slots, p: Record -> bool, lo: nat, hi: nat)
    ensures |LiveSet(s)| - |LiveSet(RevokeAll(s, Fallen(s, p, lo, hi)))| == |Fallen(s, p, lo, hi)|
  {
    LiveDrop(s, Fallen(s, p, lo, hi));
    assert LiveSet(s) * Fallen(s, p, lo, hi) == Fallen(s, p, lo, hi);
  }

  predicate EarlierBelow(s: Slots, p: Record -> bool, i: nat) {
    forall k :: 0 <= k < i && Head(s, p, k) ==> FallsTo(s, p, i, |s|, k)
  }

  /** A record before the only orphan falls exactly when it is below a matching record from there on. */
  lemma EarlierFallIff(s: Slots, p: Record -> bool, i: nat)
    requires DepthsOk(s) && SoleOrphan(s, i) && Head(s, p, i)
    ensures EarlierFall(s, p, i) <==> EarlierBelow(s, p, i)
  {
    hide Sweep, DepthsOk, Orphan, FallsTo;
    assert Sweepable(s, p, i) by { forall j: nat | Orphan(s, j) ensures j == i { SoleIs(s, i, j); } }
    SweepFells(s, p, i, |s|);
  }

  lemma SoleIs(s: Slots, i: nat, j: nat)
    requires SoleOrphan(s, i) && Orphan(s, j)
    ensures j == i
  {
  }

  /**
   Nothing matches; or nothing is orphaned; or the only orphan matches, and every matching record
   before it is in the subtree of a matching record from there on.
   */
  ghost predicate ClearableByTrees(s: Slots, p: Record -> bool) {
    || Cleared(s, p)
    || (forall i: nat :: !Orphan(s, i))
    || (exists i: nat :: SoleOrphan(s, i) && Head(s, p, i) && EarlierBelow(s, p, i))
  }

  lemma ClearableIff(s: Slots, p: Record -> bool)
    requires DepthsOk(s)
    ensures Clearable(s, p) <==> ClearableByTrees(s, p)
  {
    hide EarlierFall, EarlierBelow, SoleOrphan, Head, Orphan, DepthsOk;
    forall i: nat | SoleOrphan(s, i) && Head(s, p, i) ensures EarlierFall(s, p, i) <==> EarlierBelow(s, p, i) {
      EarlierFallIff(s, p, i);
    }
  }

  /** When a holder's exit, or the end of a resource, leaves no record of it Live, read off the table before. */
  lemma ExitClearsIff(s: Slots, holder: u64, c: ResourceClass, id: u64)
    requires DepthsOk(s)
    ensures Cleared(RevokeHolderTree(s, holder).0, HoldsAs(holder)) <==> ClearableByTrees(s, HoldsAs(holder))
    ensures Cleared(RevokeResourceTree(s, c, id).0, NamesId(c, id)) <==> ClearableByTrees(s, NamesId(c, id))
  {
    hide DepthsOk, RevokeHolderTree, RevokeResourceTree, Cleared, Clearable, ClearableByTrees;
    HolderExitClearsIff(s, holder);
    ResourceTreeClearsIff(s, c, id);
    ClearableIff(s, HoldsAs(holder));
    ClearableIff(s, NamesId(c, id));
  }

  // ---- depths stay in order ----

  lemma FewerKeepsDepths(s: Slots, t: Slots)
    requires DepthsOk(s) && |s| == |t|
    requires forall i :: 0 <= i < |s| && t[i].state.Live? ==> t[i] == s[i]
    requires forall h :: Resolves(t, h) ==> Resolves(s, h) && t[h.slot].provenance == s[h.slot].provenance
    ensures DepthsOk(t)
  {
    forall i | 0 <= i < |t| && t[i].state.Live? ensures DepthOk(t, i) { assert DepthOk(s, i); }
  }

  lemma ReleaseKeepsDepths(s: Slots, which: set<nat>)
    requires DepthsOk(s)
    ensures DepthsOk(ReleaseAll(s, which))
  {
    FewerKeepsDepths(s, ReleaseAll(s, which));
  }

  lemma HandleKeepsDepths(s: Slots, h: SlotId)
    requires DepthsOk(s)
    ensures DepthsOk(RevokeHandle(s, h).0)
  {
    hide DepthsOk;
    assert RevokedSome(s, RevokeHandle(s, h).0);
    RevokingKeepsDepths(s, RevokeHandle(s, h).0);
  }

  lemma DropKeepsDepths(s: Slots, which: set<nat>)
    requires DepthsOk(s)
    ensures DepthsOk(DropAll(s, which))
  {
    hide DepthsOk, RevokeAll, ReleaseAll;
    var live := which * LiveSet(s);
    RevokeAllRevokesSome(s, live);
    RevokingKeepsDepths(s, RevokeAll(s, live));
    ReleaseKeepsDepths(RevokeAll(s, live), live);
  }

  lemma SweptKeepsDepths(s: Slots, p: Record -> bool, which: set<nat>)
    requires DepthsOk(s)
    ensures DepthsOk(ReleaseAll(Sweep(s, p, 0, |s|).0, which))
  {
    hide DepthsOk, Sweep, ReleaseAll;
    SweepRevokesSome(s, p, 0, |s|);
    RevokingKeepsDepths(s, Sweep(s, p, 0, |s|).0);
    ReleaseKeepsDepths(Sweep(s, p, 0, |s|).0, which);
  }

  lemma TreesKeepDepths(s: Slots, holder: u64, c: ResourceClass, id: u64)
    requires DepthsOk(s)
    ensures DepthsOk(RevokeHolderTree(s, holder).0) && DepthsOk(RevokeResourceTree(s, c, id).0)
  {
    hide DepthsOk, Sweep, ReleaseAll;
    SweptKeepsDepths(s, HoldsAs(holder), HeldBy(Sweep(s, HoldsAs(holder), 0, |s|).0, holder));
    SweptKeepsDepths(s, NamesId(c, id), NamingId(Sweep(s, NamesId(c, id), 0, |s|).0, c, id));
  }

  /** Taking records away, with or without their descendants, keeps depths in order. */
  lemma TakingKeepsDepths(s: Slots, h: SlotId, which: set<nat>, holder: u64, c: ResourceClass, id: u64)
    requires DepthsOk(s)
    ensures DepthsOk(RevokeHandle(s, h).0) && DepthsOk(ReleaseAll(s, which)) && DepthsOk(DropAll(s, which))
    ensures DepthsOk(RevokeSubtree(s, h).0)
    ensures DepthsOk(RevokeHolderTree(s, holder).0) && DepthsOk(RevokeResourceTree(s, c, id).0)
  {
    hide *;
    HandleKeepsDepths(s, h);
    ReleaseKeepsDepths(s, which);
    DropKeepsDepths(s, which);
    SubtreeRevokesSome(s, h);
    RevokingKeepsDepths(s, RevokeSubtree(s, h).0);
    TreesKeepDepths(s, holder, c, id);
  }
}
