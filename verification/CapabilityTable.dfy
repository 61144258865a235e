/** The fixed-size slot table: an array of records updated in place, and a running live count. */
module Table {
  import opened Wrappers
  import opened Capability
  import opened SlotOps

  class CapabilityTable {
    const slots: array<Record>
    var liveCount: nat

    ghost predicate Valid()
      reads this, slots
    {
      slots.Length <= MAX_SLOT_COUNT && liveCount == |LiveSet(slots[..])|
    }

    constructor (n: nat)
      requires n <= MAX_SLOT_COUNT
      ensures Valid() && fresh(slots) && slots.Length == n
      ensures forall i :: 0 <= i < n ==> slots[i] == EMPTY_RECORD
    {
      slots := new Record[n](_ => EMPTY_RECORD);
      liveCount := 0;
      new;
      assert LiveSet(slots[..]) == {};
    }

    /** First usable slot and its next generation; exhausted Empty slots passed over retire. */
    method PickEmptySlot() returns (r: Result<(nat, u32), CapabilityError>)
      requires Valid()
      modifies slots
      ensures Valid()
      ensures slots[..] == RetireBefore(old(slots[..]), FirstUsable(old(slots[..])))
      ensures var k := FirstUsable(old(slots[..]));
              r == if k == slots.Length then Failure(CapacityExhausted)
                   else Success((k, old(slots[..])[k].generation + 1))
    {
      ghost var s := slots[..];
      var k := 0;
      while k < slots.Length && !Usable(slots[k])
        invariant 0 <= k <= FirstUsable(s)
        invariant slots[..] == RetireBefore(s, k)
      {
        if slots[k].state.Empty? {
          slots[k] := slots[k].(state := Retired);
        }
        k := k + 1;
      }
      assert LiveSet(slots[..]) == LiveSet(s);
      if k < slots.Length {
        r := Success((k, slots[k].generation + 1));
      } else {
        r := Failure(CapacityExhausted);
      }
    }

    method InstallRecord(record: Record) returns (r: Result<SlotId, CapabilityError>)
      requires Valid()
      modifies this, slots
      ensures Valid()
      ensures slots[..] == Install(old(slots[..]), record).0 && r == Install(old(slots[..]), record).1
      ensures r.Success? ==> r.value.WellFormed() && liveCount == old(liveCount) + 1
    {
      if !RightsValid(record.resource.class_, record.rights) {
        return Failure(InvalidRights);
      }
      ghost var s := slots[..];
      var picked := PickEmptySlot();
      match picked {
        case Failure(e) => r := Failure(e);
        case Success((slot, generation)) =>
          slots[slot] := record.(state := Live, generation := generation);
          liveCount := liveCount + 1;
          InstallAddsLive(s, record);
          r := Success(SlotId(slot, generation));
      }
    }

    method GrantCapability(holder: u64, resource: ResourceRef, rights: Rights, provenance: Provenance)
      returns (r: Result<SlotId, CapabilityError>)
      requires Valid()
      modifies this, slots
      ensures Valid()
      ensures (slots[..], r) == Grant(old(slots[..]), holder, resource, rights, provenance)
    {
      r := InstallRecord(Record(Live, holder, resource, rights, provenance, 0));
    }

    method RevokeAt(k: nat) returns (changed: bool)
      requires Valid()
      modifies this, slots
      ensures Valid()
      ensures slots[..] == RevokeSlot(old(slots[..]), k)
      ensures changed == (k < slots.Length && old(slots[..])[k].state.Live?)
      ensures liveCount == old(liveCount) - (if changed then 1 else 0)
    {
      if k >= slots.Length || !slots[k].state.Live? {
        return false;
      }
      ghost var s := slots[..];
      slots[k] := RevokedRecord(slots[k]);
      assert LiveSet(s) == LiveSet(slots[..]) + {k};
      liveCount := liveCount - 1;
      changed := true;
    }

    method ReleaseAt(k: nat) returns (changed: bool)
      requires Valid()
      modifies slots
      ensures Valid()
      ensures slots[..] == ReleaseSlot(old(slots[..]), k)
      ensures changed == (k < slots.Length && old(slots[..])[k].state.Revoked?)
    {
      if k >= slots.Length || !slots[k].state.Revoked? {
        return false;
      }
      ghost var s := slots[..];
      slots[k] := ReleasedRecord(slots[k]);
      assert LiveSet(s) == LiveSet(slots[..]);
      changed := true;
    }

    method RevokeOne(h: SlotId) returns (r: Result<bool, CapabilityError>)
      requires Valid()
      modifies this, slots
      ensures Valid()
      ensures (slots[..], r) == RevokeHandle(old(slots[..]), h)
    {
      if h.slot >= slots.Length { return Failure(InvalidHandle); }
      if slots[h.slot].state.Empty? && slots[h.slot].generation == 0 { return Success(false); }
      if slots[h.slot].generation != h.generation || slots[h.slot].state.Empty? { return Failure(StaleHandle); }
      var changed := RevokeAt(h.slot);
      r := Success(changed);
    }

    /** Revokes and releases each Live slot of `which`, without its descendants. */
    method DropMatching(ghost which: set<nat>, matches: Record -> bool) returns (count: nat)
      requires Valid()
      requires forall i :: 0 <= i < slots.Length ==> (i in which <==> matches(slots[i]))
      modifies this, slots
      ensures Valid()
      ensures slots[..] == DropAll(old(slots[..]), which)
      ensures count == old(liveCount) - liveCount
    {
      ghost var s := slots[..];
      count := 0;
      var k := 0;
      while k < slots.Length
        invariant 0 <= k <= slots.Length && Valid()
        invariant forall j :: 0 <= j < k ==> slots[j] == Dropped(s[j], matches(s[j]))
        invariant forall j :: k <= j < slots.Length ==> slots[j] == s[j]
        invariant count + liveCount == old(liveCount)
      {
        if slots[k].state.Live? && matches(slots[k]) {
          var _ := RevokeAt(k);
          var _ := ReleaseAt(k);
          count := count + 1;
        }
        k := k + 1;
      }
      assert forall j :: 0 <= j < |s| ==> DropAll(s, which)[j] == Dropped(s[j], matches(s[j]));
    }

    method RevokeHolder(holder: u64) returns (count: nat)
      requires Valid()
      modifies this, slots
      ensures Valid()
      ensures slots[..] == DropAll(old(slots[..]), HeldBy(old(slots[..]), holder))
      ensures count == old(liveCount) - liveCount
    {
      count := DropMatching(HeldBy(slots[..], holder), (r: Record) => r.holder == holder);
    }

    method RevokeResource(resource: ResourceRef) returns (count: nat)
      requires Valid()
      modifies this, slots
      ensures Valid()
      ensures slots[..] == DropAll(old(slots[..]), Naming(old(slots[..]), resource))
      ensures count == old(liveCount) - liveCount
    {
      count := DropMatching(Naming(slots[..], resource), (r: Record) => r.resource == resource);
    }

    method RevokeResourceId(c: ResourceClass, id: u64) returns (count: nat)
      requires Valid()
      modifies this, slots
      ensures Valid()
      ensures slots[..] == DropAll(old(slots[..]), NamingId(old(slots[..]), c, id))
      ensures count == old(liveCount) - liveCount
    {
      count := DropMatching(NamingId(slots[..], c, id),
                            (r: Record) => r.resource.class_ == c && r.resource.id == id);
    }
  }
}
