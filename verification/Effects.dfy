/** The fixed-capacity effect list, filled in place. */
module EffectsList {
  import opened Wrappers
  import opened Capability
  import opened PortTypes

  function Values<T>(s: seq<Option<T>>): seq<T>
    requires forall i :: 0 <= i < |s| ==> s[i].Some?
  {
    seq(|s|, i requires 0 <= i < |s| => s[i].value)
  }

  class Effects {
    const items: array<Option<Effect>>
    var len: nat
    const revoked: array<Option<ResourceRef>>
    var revokedLen: nat
    var overflowed: bool

    ghost predicate Valid()
      reads this, items, revoked
    {
      && items.Length == EFFECTS_CAPACITY && len <= items.Length
      && revoked.Length == REVOKED_TRANSFERS_CAPACITY && revokedLen <= revoked.Length
      && (forall i :: 0 <= i < len ==> items[i].Some?)
      && (forall i :: 0 <= i < revokedLen ==> revoked[i].Some?)
    }

    ghost function View(): EffectList
      requires Valid()
      reads this, items, revoked
    {
      EffectList(Values(items[..len]), Values(revoked[..revokedLen]), overflowed)
    }

    constructor ()
      ensures Valid() && View() == NO_EFFECTS && fresh(items) && fresh(revoked)
    {
      items := new Option<Effect>[EFFECTS_CAPACITY](_ => None);
      revoked := new Option<ResourceRef>[REVOKED_TRANSFERS_CAPACITY](_ => None);
      len := 0;
      revokedLen := 0;
      overflowed := false;
    }

    method PushEffect(e: Effect)
      requires Valid()
      modifies this, items
      ensures Valid() && View() == old(View()).Push(e)
    {
      ghost var view := View();
      var i := 0;
      while i < len
        invariant 0 <= i <= len && Valid() && View() == view
        invariant forall j :: 0 <= j < i ==> view.items[j] != e
      {
        if items[i].value == e {
          assert view.items[i] == e;
          return;
        }
        i := i + 1;
      }
      if len < items.Length {
        items[len] := Some(e);
        len := len + 1;
        assert View().items == view.items + [e];
      } else {
        overflowed := true;
      }
    }

    method NoteRevokedResource(r: ResourceRef)
      requires Valid()
      modifies this, revoked
      ensures Valid() && View() == old(View()).NoteRevoked(r)
    {
      ghost var view := View();
      var i := 0;
      while i < revokedLen
        invariant 0 <= i <= revokedLen && Valid() && View() == view
        invariant forall j :: 0 <= j < i ==> view.revoked[j] != r
      {
        if revoked[i].value == r {
          assert view.revoked[i] == r;
          return;
        }
        i := i + 1;
      }
      if revokedLen < revoked.Length {
        revoked[revokedLen] := Some(r);
        revokedLen := revokedLen + 1;
        assert View().revoked == view.revoked + [r];
      } else {
        overflowed := true;
      }
    }

    /** Signals the bound work set, if any. */
    method Signal(wake: Option<WakeBinding>, notice: bool)
      requires Valid()
      modifies this, items
      ensures Valid() && View() == old(View()).PushSignal(wake, notice)
    {
      if wake.Some? {
        PushEffect(SignalBit(wake.value.target, if notice then wake.value.noticeBit else wake.value.requestBit));
      }
    }
  }
}
