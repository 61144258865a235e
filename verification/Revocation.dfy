/** Subtree, holder and resource revocation, delegation, and who may revoke. */
module Revocation {
  import opened Wrappers
  import opened Capability
  import opened SlotOps
  import opened Forest
  import opened Aging
  import opened Marking
  import opened Table

  /** One sweep over the slots: marks Live records whose parent is marked. */
  method MarkPass(table: CapabilityTable, inSet: array<bool>, ghost root: nat)
    returns (r: Result<bool, CapabilityError>)
    requires table.Valid() && inSet.Length == table.slots.Length && root < inSet.Length
    requires inSet as object != table.slots
    modifies inSet
    ensures match MarkTo(table.slots[..], old(inSet[..]), inSet.Length)
            case Failure(e) => r == Failure(e)
            case Success(m) => r.Success? && inSet[..] == m
    ensures forall i :: 0 <= i < inSet.Length && old(inSet[i]) ==> inSet[i]
    ensures WellFormed(table.slots[..]) && Sound(table.slots[..], root, old(inSet[..])) ==>
              r.Success? && Sound(table.slots[..], root, inSet[..])
    ensures r.Success? ==>
              forall i :: 0 <= i < inSet.Length && Reached(table.slots[..], old(inSet[..]), i) ==> inSet[i]
    ensures r == Success(false) ==> inSet[..] == old(inSet[..])
  {
    ghost var s := table.slots[..];
    ghost var before := inSet[..];
    var added := false;
    var slot := 0;
    while slot < table.slots.Length
      invariant 0 <= slot <= table.slots.Length && table.slots[..] == s
      invariant MarkTo(s, before, slot) == Success(inSet[..])
      invariant !added ==> inSet[..] == before
    {
      PassGrows(s, before, slot);
      var record := table.slots[slot];
      if !inSet[slot] && record.state.Live? && record.provenance.parent.Some? {
        var parent := record.provenance.parent.value;
        match RecordOf(table.slots[..], parent) {
          case Failure(e) =>
            PassRefused(s, before, slot + 1);
            return Failure(e);
          case Success(_) =>
            if inSet[parent.slot] {
              inSet[slot] := true;
              added := true;
            }
        }
      }
      slot := slot + 1;
    }
    PassGrows(s, before, slot);
    if WellFormed(s) && Sound(s, root, before) {
      ForestIsMarkable(s);
      PassIsSound(s, root, before, slot);
    }
    r := Success(added);
  }

  /** The mark of each slot: exactly the subtree of `h` on a well-formed table. */
  method MarkSubtree(table: CapabilityTable, h: SlotId) returns (r: Result<Marks, CapabilityError>)
    requires table.Valid() && Resolves(table.slots[..], h)
    ensures r == MarksFrom(table.slots[..], h.slot)
    ensures WellFormed(table.slots[..]) ==>
              && r.Success?
              && Subtree(table.slots[..], h.slot) == Marked(r.value)
  {
    hide MarkTo, Subtree, WellFormed;
    ghost var s := table.slots[..];
    var n := table.slots.Length;
    var inSet := new bool[n](_ => false);
    inSet[h.slot] := true;
    ghost var start := OnlyMark(s, h.slot);
    assert inSet[..] == start;
    if WellFormed(s) {
      ForestIsMarkable(s);
      MarksAreSubtree(s, h.slot);
    }
    var pass := 0;
    var grew := true;
    while pass <= MAX_DELEGATION_DEPTH && grew
      invariant 0 <= pass <= MAX_DELEGATION_DEPTH + 1 && table.slots[..] == s && table.Valid()
      invariant MarkPasses(s, start, pass) == Success(inSet[..])
      invariant !grew ==> pass > 0 && MarkPasses(s, start, pass - 1) == Success(inSet[..])
      decreases MAX_DELEGATION_DEPTH + 1 - pass
    {
      var marked := MarkPass(table, inSet, h.slot);
      if marked.Failure? {
        PassesRefused(s, start, pass + 1, MAX_DELEGATION_DEPTH + 1);
        return Failure(marked.error);
      }
      grew := marked.value;
      pass := pass + 1;
    }
    if !grew { PassesStop(s, start, pass - 1, MAX_DELEGATION_DEPTH + 1); }
    r := Success(inSet[..]);
  }

  method RevokeMarked(table: CapabilityTable, marks: seq<bool>) returns (count: nat)
    requires table.Valid() && |marks| == table.slots.Length
    modifies table, table.slots
    ensures table.Valid()
    ensures table.slots[..] == RevokeAll(old(table.slots[..]), Marked(marks))
    ensures count == old(table.liveCount) - table.liveCount
  {
    ghost var s := table.slots[..];
    count := 0;
    var slot := 0;
    while slot < |marks|
      invariant 0 <= slot <= |marks| && table.Valid()
      invariant forall i :: 0 <= i < slot ==>
        table.slots[i] == if marks[i] && s[i].state.Live? then RevokedRecord(s[i]) else s[i]
      invariant forall i :: slot <= i < |marks| ==> table.slots[i] == s[i]
      invariant count + table.liveCount == old(table.liveCount)
    {
      if marks[slot] {
        var changed := table.RevokeAt(slot);
        if changed { count := count + 1; }
      }
      slot := slot + 1;
    }
  }

  /** Revokes the record `h` names and every Live descendant of it. */
  method RevokeSubtreeOf(table: CapabilityTable, h: SlotId) returns (r: Result<nat, CapabilityError>)
    requires table.Valid()
    modifies table, table.slots
    ensures table.Valid()
    ensures (table.slots[..], r) == RevokeSubtree(old(table.slots[..]), h)
    ensures r.Failure? ==> table.slots[..] == old(table.slots[..])
    ensures r.Success? ==> r.value == old(table.liveCount) - table.liveCount
    ensures Ages(old(table.slots[..]), table.slots[..])
  {
    hide Ages, RevokeAll, LiveSet, Marked, MarksFrom, WellFormed, Subtree;
    ghost var s := table.slots[..];
    var found := RecordOf(table.slots[..], h);
    AgesReflexive(s);
    if found.Failure? { return Failure(found.error); }
    var marks := MarkSubtree(table, h);
    if marks.Failure? { return Failure(marks.error); }
    var count := RevokeMarked(table, marks.value);
    RevokeAges(s, Marked(marks.value));
    LiveDrop(s, Marked(marks.value));
    r := Success(count);
  }

  // ---- holder and resource trees ----

  /** Revokes the subtree of every Live record satisfying `matches`, visiting their resources. */
  method RevokeHeads(table: CapabilityTable, matches: Record -> bool) returns (count: nat, visited: seq<ResourceRef>)
    requires table.Valid()
    modifies table, table.slots
    ensures table.Valid() && count == old(table.liveCount) - table.liveCount
    ensures (table.slots[..], count) == Sweep(old(table.slots[..]), matches, 0, table.slots.Length)
    ensures visited == Visited(old(table.slots[..]), matches, table.slots.Length)
    ensures Ages(old(table.slots[..]), table.slots[..])
  {
    hide Ages, RevokeSubtree, LiveSet;
    ghost var s := table.slots[..];
    count, visited := 0, [];
    AgesReflexive(s);
    var slot := 0;
    while slot < table.slots.Length
      invariant 0 <= slot <= table.slots.Length && table.Valid()
      invariant count + table.liveCount == old(table.liveCount)
      invariant Ages(s, table.slots[..])
      invariant (table.slots[..], count) == Sweep(s, matches, 0, slot) && visited == Visited(s, matches, slot)
    {
      ghost var before := table.slots[..];
      var record := table.slots[slot];
      if record.state.Live? && matches(record) {
        visited := visited + [record.resource];
        var revoked := RevokeSubtreeHandle(table, slot);
        AgesTransitive(s, before, table.slots[..]);
        count := count + revoked;
      }
      slot := slot + 1;
    }
  }

  /** Revokes the subtree of the record in `slot`; a failure revokes nothing. */
  method RevokeSubtreeHandle(table: CapabilityTable, slot: nat) returns (count: nat)
    requires table.Valid() && slot < table.slots.Length
    modifies table, table.slots
    ensures table.Valid()
    ensures count == old(table.liveCount) - table.liveCount
    ensures (table.slots[..], count) == RevokeAtSlot(old(table.slots[..]), slot)
    ensures Ages(old(table.slots[..]), table.slots[..])
  {
    hide RevokeSubtree, Ages;
    var r := RevokeSubtreeOf(table, SlotId(slot, table.slots[slot].generation));
    match r {
      case Success(n) => count := n;
      case Failure(_) => count := 0;
    }
  }

  method ReleaseMatching(table: CapabilityTable, ghost which: set<nat>, matches: Record -> bool)
    requires table.Valid()
    requires forall i :: 0 <= i < table.slots.Length && table.slots[i].state.Revoked? ==>
               (i in which <==> matches(table.slots[i]))
    modifies table.slots
    ensures table.Valid()
    ensures table.slots[..] == ReleaseAll(old(table.slots[..]), which)
  {
    ghost var s := table.slots[..];
    var slot := 0;
    while slot < table.slots.Length
      invariant 0 <= slot <= table.slots.Length && table.Valid()
      invariant forall i :: 0 <= i < slot ==>
        table.slots[i] == if i in which && s[i].state.Revoked? then ReleasedRecord(s[i]) else s[i]
      invariant forall i :: slot <= i < table.slots.Length ==> table.slots[i] == s[i]
    {
      if matches(table.slots[slot]) && table.slots[slot].state.Revoked? {
        var _ := table.ReleaseAt(slot);
      }
      slot := slot + 1;
    }
  }

  /** A holder is gone: its capabilities and all that descends from them are revoked. */
  method RevokeHolderTreeOf(table: CapabilityTable, holder: u64)
    returns (count: nat, visited: seq<ResourceRef>)
    requires table.Valid()
    modifies table, table.slots
    ensures table.Valid()
    ensures count == old(table.liveCount) - table.liveCount
    ensures (table.slots[..], count) == RevokeHolderTree(old(table.slots[..]), holder)
    ensures WellFormed(old(table.slots[..])) ==>
              forall v :: v in visited <==>
                exists i :: i in ChainHeldBy(old(table.slots[..]), holder) && old(table.slots[..])[i].resource == v
    ensures Ages(old(table.slots[..]), table.slots[..])
  {
    hide Ages, Sweep, Visited, WellFormed, ReleaseAll;
    ghost var s := table.slots[..];
    count, visited := RevokeHeads(table, HoldsAs(holder));
    if WellFormed(s) { HolderTreeVisits(s, holder); }
    TreesAge(s, INVALID_ID, holder, PersistentObject, 0);
    ReleaseMatching(table, HeldBy(table.slots[..], holder), HoldsAs(holder));
  }

  method RevokeResourceTreeOf(table: CapabilityTable, c: ResourceClass, id: u64) returns (count: nat)
    requires table.Valid()
    modifies table, table.slots
    ensures table.Valid()
    ensures count == old(table.liveCount) - table.liveCount
    ensures (table.slots[..], count) == RevokeResourceTree(old(table.slots[..]), c, id)
    ensures Ages(old(table.slots[..]), table.slots[..])
  {
    hide Ages, Sweep, Visited, ReleaseAll;
    ghost var s := table.slots[..];
    var visited;
    count, visited := RevokeHeads(table, NamesId(c, id));
    TreesAge(s, INVALID_ID, KERNEL, c, id);
    ReleaseMatching(table, NamingId(table.slots[..], c, id), NamesId(c, id));
  }

  /** Reclaims every Revoked slot. */
  method ReleaseRevoked(table: CapabilityTable) returns (count: nat)
    requires table.Valid()
    modifies table.slots
    ensures table.Valid()
    ensures table.slots[..] == ReleaseAll(old(table.slots[..]), RevokedSet(old(table.slots[..])))
    ensures count == |RevokedSet(old(table.slots[..]))|
  {
    ghost var s := table.slots[..];
    ghost var done: set<nat> := {};
    count := 0;
    var slot := 0;
    while slot < table.slots.Length
      invariant 0 <= slot <= table.slots.Length && table.Valid()
      invariant forall i :: 0 <= i < slot ==>
        table.slots[i] == if s[i].state.Revoked? then ReleasedRecord(s[i]) else s[i]
      invariant forall i :: slot <= i < table.slots.Length ==> table.slots[i] == s[i]
      invariant done <= RevokedSet(s) && count == |done|
      invariant forall i: nat :: i in done <==> i < slot && s[i].state.Revoked?
    {
      var changed := table.ReleaseAt(slot);
      if changed {
        count := count + 1;
        done := done + {slot};
      }
      slot := slot + 1;
    }
    assert done == RevokedSet(s);
  }

  /** Installs an attenuated child; every check precedes the one change. */
  method DelegateCapability(table: CapabilityTable, source: u64, parent: SlotId, target: u64, rights: Rights)
    returns (r: Result<SlotId, CapabilityError>)
    requires table.Valid()
    modifies table, table.slots
    ensures table.Valid()
    ensures (table.slots[..], r) == DelegateTo(old(table.slots[..]), source, parent, target, rights)
  {
    var child := ChildRecord(table.slots[..], source, parent, target, rights);
    if child.Failure? { return Failure(child.error); }
    r := table.InstallRecord(child.value);
  }

  /** Whether `actor` holds the record or one of its ancestors. */
  method AuthorizeRevoke(table: CapabilityTable, actor: u64, h: SlotId) returns (r: Result<(), CapabilityError>)
    requires table.Valid()
    ensures var s := table.slots[..];
            match RecordOf(s, h)
            case Failure(e) => r == Failure(e)
            case Success(record) =>
              && (r.Failure? ==> r.error == UnauthorizedHolder)
              && (record.holder == actor ==> r.Success?)
              && (WellFormed(s) && record.state.Live? ==> (r.Success? <==> HeldOnChain(s, actor, h.slot)))
  {
    ghost var s := table.slots[..];
    var found := RecordOf(table.slots[..], h);
    if found.Failure? { return Failure(found.error); }
    if found.value.holder == actor { return Success(()); }
    var current := found.value.provenance.parent;
    ghost var at: nat := h.slot;
    var step := 0;
    while step < MAX_DELEGATION_DEPTH && current.Some?
      invariant 0 <= step <= MAX_DELEGATION_DEPTH
      invariant WellFormed(s) && s[h.slot].state.Live? ==>
        && at < |s| && s[at].state.Live? && current == s[at].provenance.parent
        && s[at].holder != actor
        && s[at].provenance.depth + step <= MAX_DELEGATION_DEPTH
        && (HeldOnChain(s, actor, h.slot) <==> HeldOnChain(s, actor, at))
    {
      if WellFormed(s) && s[h.slot].state.Live? { ParentLives(s, at); assert Attached(s, at); }
      var record := RecordOf(table.slots[..], current.value);
      if record.Failure? { return Failure(UnauthorizedHolder); }
      if record.value.holder == actor { return Success(()); }
      at := current.value.slot;
      current := record.value.provenance.parent;
      step := step + 1;
    }
    if WellFormed(s) && s[h.slot].state.Live? { assert Attached(s, at); }
    r := Failure(UnauthorizedHolder);
  }
}
