/**
 The delegation forest: what a well-formed table guarantees about every Live record, and why the
 table operations keep it.
 */
module Forest {
  import opened Wrappers
  import opened Capability
  import opened SlotOps

  /** A Live record is a root grant or an attenuated child of a Live record. */
  predicate Attached(s: Slots, i: nat)
    requires i < |s|
  {
    var r := s[i];
    && RightsValid(r.resource.class_, r.rights)
    && r.provenance.depth <= MAX_DELEGATION_DEPTH
    && match r.provenance.parent
       case None => r.provenance.depth == 0
       case Some(h) => ChildLink(s, r, h)
  }

  /** `r` is an attenuated child of the Live record `h` names. */
  predicate ChildLink(s: Slots, r: Record, h: SlotId) {
    && h.slot < |s| && s[h.slot].state.Live? && s[h.slot].generation == h.generation
    && var p := s[h.slot];
    && r.resource == p.resource
    && r.rights <= p.rights
    && Delegate in p.rights
    && r.rights !! RootOnlyFor(r.resource.class_)
    && r.provenance.depth == p.provenance.depth + 1
    && r.provenance.rootHolder == p.provenance.rootHolder
  }

  predicate WellFormed(s: Slots) {
    forall i :: 0 <= i < |s| && s[i].state.Live? ==> Attached(s, i)
  }

  /** With a Live slot in `which`, every Live child of it is in `which` too. */
  predicate DownwardClosed(s: Slots, which: set<nat>) {
    forall i :: 0 <= i < |s| && ChildIn(s, i, which) ==> i in which
  }

  predicate ChildIn(s: Slots, i: nat, which: set<nat>)
    requires i < |s|
  {
    s[i].state.Live? && s[i].provenance.parent.Some? && s[i].provenance.parent.value.slot in which
  }

  // ---- what keeps the forest ----

  lemma RevokeAllKeepsForest(s: Slots, which: set<nat>)
    requires WellFormed(s) && DownwardClosed(s, which)
    ensures WellFormed(RevokeAll(s, which))
  {
  }

  lemma ReleaseAllKeepsForest(s: Slots, which: set<nat>)
    requires WellFormed(s)
    ensures WellFormed(ReleaseAll(s, which))
  {
    var t := ReleaseAll(s, which);
    forall i | 0 <= i < |t| && t[i].state.Live? ensures Attached(t, i) {
      AttachedStays(s, t, i);
    }
  }

  /** A Live record stays attached while its parent is the record it was. */
  lemma AttachedStays(s: Slots, t: Slots, i: nat)
    requires i < |s| == |t| && t[i] == s[i] && Attached(s, i)
    requires forall h ::
               s[i].provenance.parent == Some(h) && h.slot < |s| && s[h.slot].state.Live? ==> t[h.slot] == s[h.slot]
    ensures Attached(t, i)
  {
  }

  /** `r` may join the forest: it is a root, or an attenuated child of a Live record. */
  predicate MayJoin(s: Slots, r: Record) {
    && r.provenance.depth <= MAX_DELEGATION_DEPTH
    && match r.provenance.parent
       case None => r.provenance.depth == 0
       case Some(h) => ChildLink(s, r, h)
  }

  /** Installing a root, or a child of a Live record, keeps the forest. */
  lemma InstallKeepsForest(s: Slots, r: Record)
    requires WellFormed(s) && MayJoin(s, r)
    ensures WellFormed(Install(s, r).0)
  {
    InstallKeepsForestIff(s, r);
  }

  /** Nothing is installed: the rights are invalid or no slot is usable. */
  predicate NotInstalled(s: Slots, r: Record) {
    !RightsValid(r.resource.class_, r.rights) || FirstUsable(s) == |s|
  }

  /** An install keeps the forest exactly when nothing is installed or the record may join. */
  lemma InstallKeepsForestIff(s: Slots, r: Record)
    requires WellFormed(s)
    ensures WellFormed(Install(s, r).0) <==> NotInstalled(s, r) || MayJoin(s, r)
  {
    hide WellFormed;
    InstallKeepsOthers(s, r);
    if Install(s, r).1.Success? { InstalledAttachedIff(s, r); }
    AttachedIsWellFormed(Install(s, r).0);
  }

  lemma AttachedIsWellFormed(s: Slots)
    ensures WellFormed(s) <==> forall i :: 0 <= i < |s| && s[i].state.Live? ==> Attached(s, i)
  {
  }

  /** The records that were there stay attached. */
  lemma InstallKeepsOthers(s: Slots, r: Record)
    requires WellFormed(s)
    ensures var (t, h) := Install(s, r);
            forall i :: 0 <= i < |t| && t[i].state.Live? && (h.Success? ==> i != h.value.slot) ==> Attached(t, i)
  {
    var (t, h) := Install(s, r);
    forall i | 0 <= i < |t| && t[i].state.Live? && (h.Success? ==> i != h.value.slot) ensures Attached(t, i) {
      AttachedStays(s, t, i);
    }
  }

  lemma InstalledAttachedIff(s: Slots, r: Record)
    requires Install(s, r).1.Success?
    ensures Attached(Install(s, r).0, Install(s, r).1.value.slot) <==> MayJoin(s, r)
  {
    var (t, h) := Install(s, r);
    var k := h.value.slot;
    if r.provenance.parent.Some? {
      var p := r.provenance.parent.value;
      if p.slot < |s| && p.slot != k { assert t[p.slot].state.Live? == s[p.slot].state.Live?; }
    }
  }

  lemma DelegateKeepsForest(s: Slots, source: u64, parent: SlotId, target: u64, rights: Rights)
    requires WellFormed(s)
    ensures WellFormed(DelegateTo(s, source, parent, target, rights).0)
  {
    var c := ChildRecord(s, source, parent, target, rights);
    if c.Success? {
      assert Attached(s, parent.slot);
      InstallKeepsForest(s, c.value);
    }
  }

  lemma ParentLives(s: Slots, i: nat)
    requires WellFormed(s) && i < |s| && s[i].state.Live? && s[i].provenance.parent.Some?
    ensures HasParent(s, i) && s[ParentSlot(s, i)].state.Live?
    ensures s[i].resource == s[ParentSlot(s, i)].resource
  {
  }

  lemma SubtreeClosed(s: Slots, root: nat)
    requires WellFormed(s)
    ensures DownwardClosed(s, Subtree(s, root))
  {
  }

  lemma ChainClosed(s: Slots, holder: u64)
    requires WellFormed(s)
    ensures DownwardClosed(s, ChainHeldBy(s, holder))
  {
  }

  lemma NamingClosed(s: Slots, which: set<nat>, resource: ResourceRef, c: ResourceClass, id: u64)
    requires WellFormed(s)
    requires which == Naming(s, resource) * LiveSet(s) || which == NamingId(s, c, id) * LiveSet(s)
             || which == NamingId(s, c, id)
    ensures DownwardClosed(s, which)
  {
  }

  /**
   Dropping records without their descendants keeps the forest exactly when no Live record
   outside the dropped set is a child of one inside it.
   */
  lemma DropKeepsForestIff(s: Slots, which: set<nat>)
    requires WellFormed(s)
    ensures WellFormed(DropAll(s, which)) <==> DownwardClosed(s, which * LiveSet(s))
  {
    var live := which * LiveSet(s);
    var t := DropAll(s, which);
    if DownwardClosed(s, live) {
      RevokeAllKeepsForest(s, live);
      ReleaseAllKeepsForest(RevokeAll(s, live), live);
    } else {
      var i :| 0 <= i < |s| && ChildIn(s, i, live) && i !in live;
      assert t[i] == s[i] && t[i].state.Live? && !Attached(t, i);
    }
  }

  /** Revoking records without their descendants keeps the forest under the same condition. */
  lemma RevokeKeepsForestIff(s: Slots, which: set<nat>)
    requires WellFormed(s)
    ensures WellFormed(RevokeAll(s, which)) <==> DownwardClosed(s, which * LiveSet(s))
  {
    var live := which * LiveSet(s);
    var t := RevokeAll(s, which);
    assert t == RevokeAll(s, live);
    if DownwardClosed(s, live) {
      RevokeAllKeepsForest(s, live);
    } else {
      var i :| 0 <= i < |s| && ChildIn(s, i, live) && i !in live;
      assert t[i] == s[i] && t[i].state.Live? && !Attached(t, i);
    }
  }

  /** No Live record names `h` as its parent. */
  predicate Childless(s: Slots, h: SlotId) {
    forall i :: 0 <= i < |s| && s[i].state.Live? ==> s[i].provenance.parent != Some(h)
  }

  /** No Live record of another holder is a child of a record of `holder`. */
  predicate NoneDelegatedBy(s: Slots, holder: u64) {
    forall i :: 0 <= i < |s| && s[i].state.Live? && s[i].provenance.parent.Some? && s[i].holder != holder ==>
      ParentSlot(s, i) < |s| && s[ParentSlot(s, i)].holder != holder
  }

  /**
   The single-record revoke keeps the forest exactly when no Live record is a child of its handle.
   A handle that names no Live record has no children, so it always does.
   */
  lemma RevokeHandleKeepsForestIff(s: Slots, h: SlotId)
    requires WellFormed(s)
    ensures WellFormed(RevokeHandle(s, h).0) <==> Childless(s, h)
  {
    if RevokeHandle(s, h).0 == s {
      forall i | 0 <= i < |s| && s[i].state.Live? ensures s[i].provenance.parent != Some(h) { assert Attached(s, i); }
    } else {
      var which := {h.slot};
      assert RevokeHandle(s, h).0 == RevokeAll(s, which);
      RevokeKeepsForestIff(s, which);
      forall i | 0 <= i < |s| && s[i].state.Live?
        ensures ChildIn(s, i, which) <==> s[i].provenance.parent == Some(h)
        ensures ChildIn(s, i, which * LiveSet(s)) <==> ChildIn(s, i, which)
        ensures s[i].provenance.parent == Some(h) ==> i != h.slot
      {
        assert Attached(s, i);
      }
    }
  }

  /** Dropping a holder's records keeps the forest exactly when nothing it delegated to others is Live. */
  lemma RevokeHolderKeepsForestIff(s: Slots, holder: u64)
    requires WellFormed(s)
    ensures WellFormed(DropAll(s, HeldBy(s, holder))) <==> NoneDelegatedBy(s, holder)
  {
    var live := HeldBy(s, holder) * LiveSet(s);
    DropKeepsForestIff(s, HeldBy(s, holder));
    forall i | 0 <= i < |s| && s[i].state.Live?
      ensures i in live <==> s[i].holder == holder
      ensures s[i].provenance.parent.Some? ==> ParentSlot(s, i) < |s|
      ensures ChildIn(s, i, live) <==> s[i].provenance.parent.Some? && s[ParentSlot(s, i)].holder == holder
    {
      assert Attached(s, i);
    }
  }

  /**
   Both failures are reachable from an empty table: grant a root, delegate it to another holder,
   then revoke the root, by its handle or by its holder.
   */
  lemma RevokeCanOrphan(owner: u64, other: u64, id: u64)
    requires owner != other && other != KERNEL
    ensures var empty := [EMPTY_RECORD, EMPTY_RECORD];
            var (granted, root) := Grant(empty, owner, ResourceRef(PersistentObject, id, 0), {Read, Delegate},
                                         Root(owner));
            && WellFormed(empty) && root.Success?
            && var (delegated, child) := DelegateTo(granted, owner, root.value, other, {Read});
            && child.Success? && WellFormed(delegated)
            && !WellFormed(RevokeHandle(delegated, root.value).0)
            && !WellFormed(DropAll(delegated, HeldBy(delegated, owner)))
  {
    var empty: Slots := [EMPTY_RECORD, EMPTY_RECORD];
    var (granted, root) := Grant(empty, owner, ResourceRef(PersistentObject, id, 0), {Read, Delegate}, Root(owner));
    assert FirstUsable(empty) == 0 && FirstUsable(granted) == 1;
    InstallKeepsForest(empty,
                       Record(Live, owner, ResourceRef(PersistentObject, id, 0), {Read, Delegate}, Root(owner), 0));
    DelegateKeepsForest(granted, owner, root.value, other, {Read});
    var delegated := DelegateTo(granted, owner, root.value, other, {Read}).0;
    assert delegated[1].provenance.parent == Some(root.value) && delegated[1].holder == other;
    assert delegated[0].holder == owner;
    RevokeHandleKeepsForestIff(delegated, root.value);
    RevokeHolderKeepsForestIff(delegated, owner);
  }

  /** A grant under a parent that is not there succeeds, and breaks the forest of an empty table. */
  lemma GrantCanOrphan(holder: u64, id: u64)
    ensures var empty := [EMPTY_RECORD];
            var (granted, h) := Grant(empty, holder, ResourceRef(PersistentObject, id, 0), {Read},
                                      Provenance(Some(SlotId(0, 7)), 1, holder));
            WellFormed(empty) && h.Success? && !WellFormed(granted)
  {
    var empty: Slots := [EMPTY_RECORD];
    var r := Record(Live, holder, ResourceRef(PersistentObject, id, 0), {Read},
                    Provenance(Some(SlotId(0, 7)), 1, holder), 0);
    assert FirstUsable(empty) == 0;
    InstallKeepsForestIff(empty, r);
  }

  // ---- leaves ----

  /** A Live record without the right to delegate has no Live children. */
  lemma NoDelegateIsLeaf(s: Slots, k: nat)
    requires WellFormed(s) && k < |s|
    requires Delegate !in s[k].rights || !s[k].state.Live?
    ensures DownwardClosed(s, {k})
  {
  }

  /** Every delegated shared buffer is read-only, hence a leaf. */
  lemma SharedBufferChildIsLeaf(s: Slots, k: nat)
    requires WellFormed(s) && k < |s|
    requires s[k].resource.class_ == SharedBuffer && s[k].provenance.parent.Some?
    ensures s[k].state.Live? ==> s[k].rights == {Read}
    ensures DownwardClosed(s, {k})
  {
  }

  // ---- chains of ancestors ----

  /** Slots whose chain of parents meets a Live record are revoked together with it. */
  lemma ChainHolderDescends(s: Slots, holder: u64, i: nat)
    returns (a: nat)
    requires WellFormed(s) && i < |s| && s[i].state.Live? && HeldOnChain(s, holder, i)
    ensures a < |s| && s[a].state.Live? && s[a].holder == holder && Descends(s, a, i)
    decreases s[i].provenance.depth
  {
    if s[i].holder == holder {
      a := i;
    } else {
      ParentLives(s, i);
      a := ChainHolderDescends(s, holder, ParentSlot(s, i));
    }
  }

  lemma {:induction false} DescendantIsHeldOnChain(s: Slots, holder: u64, a: nat, i: nat)
    requires WellFormed(s) && i < |s| && s[i].state.Live? && a < |s| && s[a].holder == holder
    requires Descends(s, a, i)
    ensures HeldOnChain(s, holder, i)
    decreases s[i].provenance.depth
  {
    if i != a {
      ParentLives(s, i);
      DescendantIsHeldOnChain(s, holder, a, ParentSlot(s, i));
    }
  }

  lemma {:induction false} DescendantsShareResource(s: Slots, a: nat, i: nat)
    requires WellFormed(s) && i < |s| && s[i].state.Live? && a < |s| && Descends(s, a, i)
    ensures s[i].resource == s[a].resource
    decreases s[i].provenance.depth
  {
    if i != a {
      ParentLives(s, i);
      DescendantsShareResource(s, a, ParentSlot(s, i));
    }
  }

  /** Revoking a downward-closed set leaves the ancestry of every surviving record as it was. */
  lemma {:induction false} DescendsAfterRevoke(s: Slots, which: set<nat>, root: nat, i: nat)
    requires WellFormed(s) && DownwardClosed(s, which)
    requires i < |s| && s[i].state.Live? && i !in which
    ensures Descends(RevokeAll(s, which), root, i) == Descends(s, root, i)
    decreases s[i].provenance.depth
  {
    if i != root && s[i].provenance.parent.Some? {
      ParentLives(s, i);
      DescendsAfterRevoke(s, which, root, ParentSlot(s, i));
    }
  }
}
