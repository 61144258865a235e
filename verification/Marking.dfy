/**
 What the marking passes of a subtree revocation find, and what sweeps over several roots revoke: on
 a well-formed table exactly the subtrees, on any table nothing at all once a Live record elsewhere
 has lost its parent.
 */
module Marking {
  import opened Wrappers
  import opened Capability
  import opened SlotOps
  import opened Forest
  import opened Aging

  /**
   Depths still count links: a Live record is one level below its parent, if the parent resolves, and
   no deeper than delegation goes. Revoking and releasing keep this where they break the forest.
   */
  predicate DepthsOk(s: Slots) {
    forall i :: 0 <= i < |s| && s[i].state.Live? ==> DepthOk(s, i)
  }

  predicate DepthOk(s: Slots, i: nat)
    requires i < |s|
  {
    && s[i].provenance.depth <= MAX_DELEGATION_DEPTH
    && (s[i].provenance.parent.Some? && Resolves(s, s[i].provenance.parent.value) ==>
          s[i].provenance.depth == s[ParentSlot(s, i)].provenance.depth + 1)
  }

  /** Nothing but possibly `a` is orphaned. */
  ghost predicate OrphanOnly(s: Slots, a: nat) {
    forall i: nat :: Orphan(s, i) ==> i == a
  }

  lemma ForestIsMarkable(s: Slots)
    requires WellFormed(s)
    ensures DepthsOk(s) && forall i: nat :: !Orphan(s, i)
  {
    forall i | 0 <= i < |s| && s[i].state.Live? ensures DepthOk(s, i) { assert Attached(s, i); }
    forall i: nat ensures !Orphan(s, i) { if Orphan(s, i) { ParentLives(s, i); } }
  }

  /** `i` is a Live record whose parent slot is in `inSet`. */
  predicate Reached(s: Slots, inSet: seq<bool>, i: nat)
    requires i < |s| == |inSet|
  {
    && s[i].state.Live? && s[i].provenance.parent.Some?
    && s[i].provenance.parent.value.slot < |inSet| && inSet[s[i].provenance.parent.value.slot]
  }

  ghost predicate Sound(s: Slots, root: nat, inSet: seq<bool>)
    requires |inSet| == |s|
  {
    forall i :: 0 <= i < |s| && inSet[i] ==> Descends(s, root, i)
  }

  /** Every descendant at most `pass` levels below the root has been found. */
  ghost predicate CompleteTo(s: Slots, root: nat, inSet: seq<bool>, pass: nat)
    requires |inSet| == |s| && root < |s|
  {
    forall i :: 0 <= i < |s| && Descends(s, root, i) && s[i].provenance.depth <= s[root].provenance.depth + pass
      ==> inSet[i]
  }

  ghost predicate Closed(s: Slots, inSet: seq<bool>)
    requires |inSet| == |s|
  {
    forall i :: 0 <= i < |s| && Reached(s, inSet, i) ==> inSet[i]
  }

  lemma {:induction false} DescendantIsDeeper(s: Slots, root: nat, i: nat)
    requires i < |s| && root < |s| && Descends(s, root, i)
    ensures i == root || s[root].provenance.depth < s[i].provenance.depth
    decreases s[i].provenance.depth
  {
    if i != root {
      DescendantIsDeeper(s, root, ParentSlot(s, i));
    }
  }

  lemma OnePass(s: Slots, root: nat, before: seq<bool>, after: seq<bool>, pass: nat)
    requires |before| == |after| == |s| && root < |s| && DepthsOk(s)
    requires CompleteTo(s, root, before, pass)
    requires forall i :: 0 <= i < |s| && before[i] ==> after[i]
    requires forall i :: 0 <= i < |s| && Reached(s, before, i) ==> after[i]
    ensures CompleteTo(s, root, after, pass + 1)
  {
    forall i | 0 <= i < |s| && Descends(s, root, i) && s[i].provenance.depth <= s[root].provenance.depth + pass + 1
      ensures after[i]
    {
      if i != root { assert DepthOk(s, i) && Reached(s, before, i); }
    }
  }

  /** A set that contains the root and the children of its members contains the subtree. */
  lemma {:induction false} ClosedHoldsSubtree(s: Slots, root: nat, inSet: seq<bool>, i: nat)
    requires |inSet| == |s| && root < |s| && i < |s|
    requires inSet[root] && Closed(s, inSet) && Descends(s, root, i)
    ensures inSet[i]
    decreases s[i].provenance.depth
  {
    if i != root {
      ClosedHoldsSubtree(s, root, inSet, ParentSlot(s, i));
      assert Reached(s, inSet, i);
    }
  }

  /** Passes enough to exceed the depth bound, or one pass that adds nothing, find the subtree. */
  lemma MarkedIsSubtree(s: Slots, root: nat, inSet: seq<bool>, pass: nat)
    requires |inSet| == |s| && root < |s| && DepthsOk(s)
    requires inSet[root] && Sound(s, root, inSet) && CompleteTo(s, root, inSet, pass)
    requires pass > MAX_DELEGATION_DEPTH || Closed(s, inSet)
    ensures Subtree(s, root) == Marked(inSet)
  {
    forall i: nat | i < |s| && Descends(s, root, i) ensures inSet[i] {
      if pass > MAX_DELEGATION_DEPTH {
        if i != root { assert DepthOk(s, i); }
      } else {
        ClosedHoldsSubtree(s, root, inSet, i);
      }
    }
  }

  // ---- one pass ----

  /** A pass changes a mark only where it has been; it loses none and finds what its start reaches. */
  lemma {:induction false} PassGrows(s: Slots, marks: Marks, k: nat)
    requires k <= |s| == |marks| && MarkTo(s, marks, k).Success?
    ensures var m := MarkTo(s, marks, k).value;
            && (forall i :: 0 <= i < |s| && marks[i] ==> m[i])
            && (forall i :: k <= i < |s| ==> m[i] == marks[i])
            && (forall i :: 0 <= i < k && Reached(s, marks, i) ==> m[i])
  {
    if k > 0 { PassGrows(s, marks, k - 1); }
  }

  lemma {:induction false} PassIsSound(s: Slots, root: nat, marks: Marks, k: nat)
    requires k <= |s| == |marks| && MarkTo(s, marks, k).Success? && DepthsOk(s) && Sound(s, root, marks)
    ensures Sound(s, root, MarkTo(s, marks, k).value)
  {
    if k > 0 {
      PassIsSound(s, root, marks, k - 1);
      if MarkTo(s, marks, k).value != MarkTo(s, marks, k - 1).value { assert DepthOk(s, k - 1) && HasParent(s, k - 1); }
    }
  }

  /** A pass is refused exactly when an orphan that was not marked lies on its way, by the first such. */
  lemma {:induction false} PassFailsIff(s: Slots, marks: Marks, k: nat)
    requires k <= |s| == |marks|
    ensures MarkTo(s, marks, k).Failure? <==> exists i :: 0 <= i < k && !marks[i] && Orphan(s, i)
    ensures MarkTo(s, marks, k).Failure? ==>
              exists i ::
                0 <= i < k && !marks[i] && Orphan(s, i) && (forall j :: 0 <= j < i && !marks[j] ==> !Orphan(s, j))
                          && MarkTo(s, marks, k).error == RecordOf(s, s[i].provenance.parent.value).error
  {
    if k > 0 {
      PassFailsIff(s, marks, k - 1);
      if MarkTo(s, marks, k - 1).Success? {
        PassGrows(s, marks, k - 1);
        var m := MarkTo(s, marks, k - 1).value;
        assert m[k - 1] == marks[k - 1];
        if MarkTo(s, marks, k).Failure? { assert !marks[k - 1] && Orphan(s, k - 1); }
      }
    }
  }

  /** A refusal ends the pass and cannot happen on a well-formed table. */
  lemma {:induction false} PassRefused(s: Slots, marks: Marks, k: nat)
    requires k <= |s| == |marks| && MarkTo(s, marks, k).Failure?
    ensures MarkTo(s, marks, |s|) == MarkTo(s, marks, k) && !WellFormed(s)
    decreases |s| - k
  {
    PassFailsIff(s, marks, k);
    if WellFormed(s) { ForestIsMarkable(s); }
    if k < |s| { PassRefused(s, marks, k + 1); }
  }

  // ---- all passes ----

  /** Later passes see more marks, so only the first one can be refused. */
  lemma {:induction false} PassesFailIff(s: Slots, marks: Marks, n: nat)
    requires |s| == |marks| && n > 0
    ensures MarkPasses(s, marks, n).Failure? <==> exists i :: 0 <= i < |s| && !marks[i] && Orphan(s, i)
    ensures MarkPasses(s, marks, n).Failure? ==> MarkPasses(s, marks, n) == MarkTo(s, marks, |s|)
    ensures MarkPasses(s, marks, n).Success? ==>
              forall i :: 0 <= i < |s| && marks[i] ==> MarkPasses(s, marks, n).value[i]
  {
    assert MarkPasses(s, marks, 0) == Success(marks);
    if n > 1 { PassesFailIff(s, marks, n - 1); }
    if MarkPasses(s, marks, n - 1).Success? {
      var m := MarkPasses(s, marks, n - 1).value;
      PassFailsIff(s, m, |s|);
      if MarkTo(s, m, |s|).Success? { PassGrows(s, m, |s|); }
    }
  }

  /** A pass that adds nothing may be the last one. */
  lemma {:induction false} PassesStop(s: Slots, marks: Marks, k: nat, n: nat)
    requires |s| == |marks| && k <= n && MarkPasses(s, marks, k).Success?
    requires MarkTo(s, MarkPasses(s, marks, k).value, |s|) == MarkPasses(s, marks, k)
    ensures MarkPasses(s, marks, n) == MarkPasses(s, marks, k)
  {
    if k < n { PassesStop(s, marks, k, n - 1); }
  }

  lemma {:induction false} PassesRefused(s: Slots, marks: Marks, k: nat, n: nat)
    requires |s| == |marks| && k <= n && MarkPasses(s, marks, k).Failure?
    ensures MarkPasses(s, marks, n) == MarkPasses(s, marks, k)
  {
    if k < n { PassesRefused(s, marks, k, n - 1); }
  }

  lemma {:induction false} PassesFindLevels(s: Slots, root: nat, n: nat)
    requires DepthsOk(s) && root < |s| && OrphanOnly(s, root)
    ensures var r := MarkPasses(s, OnlyMark(s, root), n);
            r.Success? && r.value[root] && Sound(s, root, r.value) && CompleteTo(s, root, r.value, n)
  {
    hide DepthsOk, Orphan;
    var start := OnlyMark(s, root);
    if n == 0 {
      forall i | 0 <= i < |s| && Descends(s, root, i) && s[i].provenance.depth <= s[root].provenance.depth
        ensures start[i]
      {
        DescendantIsDeeper(s, root, i);
      }
    } else {
      PassesFindLevels(s, root, n - 1);
      var m := MarkPasses(s, start, n - 1).value;
      PassFailsIff(s, m, |s|);
      PassGrows(s, m, |s|);
      PassIsSound(s, root, m, |s|);
      OnePass(s, root, m, MarkTo(s, m, |s|).value, n - 1);
    }
  }

  /** With depths in order and nothing else orphaned, the passes mark exactly the subtree. */
  lemma MarksAreSubtree(s: Slots, root: nat)
    requires DepthsOk(s) && root < |s| && OrphanOnly(s, root)
    ensures MarksFrom(s, root).Success? && Marked(MarksFrom(s, root).value) == Subtree(s, root)
  {
    PassesFindLevels(s, root, MAX_DELEGATION_DEPTH + 1);
    MarkedIsSubtree(s, root, MarksFrom(s, root).value, MAX_DELEGATION_DEPTH + 1);
  }

  /** So the revocation takes exactly the subtree. */
  lemma SubtreeRevokedIs(s: Slots, h: SlotId)
    requires Resolves(s, h) && DepthsOk(s) && OrphanOnly(s, h.slot)
    ensures RevokeSubtree(s, h)
         == (RevokeAll(s, Subtree(s, h.slot)), Success(|LiveSet(s) * Subtree(s, h.slot)|))
  {
    MarksAreSubtree(s, h.slot);
  }

  lemma SubtreeOnForest(s: Slots, h: SlotId)
    requires WellFormed(s)
    ensures RevokeSubtree(s, h)
         == match RecordOf(s, h)
            case Failure(e) => (s, Failure(e))
            case Success(_) => (RevokeAll(s, Subtree(s, h.slot)), Success(|LiveSet(s) * Subtree(s, h.slot)|))
  {
    ForestIsMarkable(s);
    if Resolves(s, h) { SubtreeRevokedIs(s, h); }
  }

  /**
   A subtree revocation whose root resolves is refused exactly when some other Live record, anywhere
   in the table, names a parent that does not resolve. It then changes nothing.
   */
  lemma RevokeSubtreeRefusedIff(s: Slots, h: SlotId)
    requires Resolves(s, h)
    ensures RevokeSubtree(s, h).1.Failure? <==> exists i: nat :: i != h.slot && Orphan(s, i)
    ensures RevokeSubtree(s, h).1.Failure? ==>
              && RevokeSubtree(s, h).0 == s
              && exists i: nat ::
                   i != h.slot && Orphan(s, i) && (forall j: nat :: j < i && j != h.slot ==> !Orphan(s, j))
                                  && RevokeSubtree(s, h).1.error == RecordOf(s, s[i].provenance.parent.value).error
    ensures RevokeSubtree(s, h).1.Success? ==> !RevokeSubtree(s, h).0[h.slot].state.Live?
  {
    var start := OnlyMark(s, h.slot);
    PassesFailIff(s, start, MAX_DELEGATION_DEPTH + 1);
    PassFailsIff(s, start, |s|);
    if MarksFrom(s, h.slot).Success? { assert start[h.slot] && h.slot in Marked(MarksFrom(s, h.slot).value); }
  }

  // ---- sweeps on a well-formed table ----

  lemma LiveDrop(s: Slots, which: set<nat>)
    ensures LiveSet(RevokeAll(s, which)) == LiveSet(s) - which
    ensures |LiveSet(s)| - |LiveSet(RevokeAll(s, which))| == |LiveSet(s) * which|
  {
  }

  /** Revoking one more subtree of an already revoked downward-closed set. */
  lemma RevokeOneMore(s: Slots, gone: set<nat>, k: nat)
    requires WellFormed(s) && DownwardClosed(s, gone)
    requires k < |s| && s[k].state.Live? && k !in gone
    ensures var t := RevokeAll(s, gone);
            var more := gone + Subtree(s, k) * LiveSet(s);
            && WellFormed(t)
            && RevokeAll(t, Subtree(t, k)) == RevokeAll(s, more)
            && DownwardClosed(s, more)
  {
    var t := RevokeAll(s, gone);
    RevokeAllKeepsForest(s, gone);
    SubtreeClosed(s, k);
    var more := gone + Subtree(s, k) * LiveSet(s);
    forall i | 0 <= i < |s| ensures RevokeAll(t, Subtree(t, k))[i] == RevokeAll(s, more)[i] {
      if s[i].state.Live? && i !in gone {
        DescendsAfterRevoke(s, gone, k, i);
      }
    }
    forall i | 0 <= i < |s| && ChildIn(s, i, more) ensures i in more {
      if ChildIn(s, i, gone) {
      } else {
        assert ChildIn(s, i, Subtree(s, k));
      }
    }
  }

  lemma {:induction false} ClosedHoldsDescendants(s: Slots, which: set<nat>, a: nat, i: nat)
    requires WellFormed(s) && DownwardClosed(s, which) && a in which
    requires i < |s| && s[i].state.Live? && Descends(s, a, i)
    ensures i in which
    decreases s[i].provenance.depth
  {
    if i != a {
      ParentLives(s, i);
      ClosedHoldsDescendants(s, which, a, ParentSlot(s, i));
      assert ChildIn(s, i, which);
    }
  }

  /** What a sweep over the first `k` slots has revoked: the subtrees of the records in `heads`. */
  ghost predicate Swept(s: Slots, heads: set<nat>, gone: set<nat>, k: nat) {
    && DownwardClosed(s, gone)
    && gone <= LiveSet(s)
    && (forall j :: 0 <= j < k && j in heads ==> j in gone)
    && (forall i :: i in gone ==> exists a :: a in heads && Descends(s, a, i))
  }

  lemma SweepOne(s: Slots, heads: set<nat>, gone: set<nat>, k: nat)
    requires WellFormed(s) && heads <= LiveSet(s) && k < |s| && Swept(s, heads, gone, k)
    ensures k !in heads || k in gone ==> Swept(s, heads, gone, k + 1)
    ensures k in heads && k !in gone ==> Swept(s, heads, gone + Subtree(s, k) * LiveSet(s), k + 1)
  {
    if k in heads && k !in gone {
      RevokeOneMore(s, gone, k);
    }
  }

  /** The visited resources are exactly those of the records revoked. */
  ghost predicate Visits(s: Slots, gone: set<nat>, visited: seq<ResourceRef>) {
    && gone <= LiveSet(s)
    && forall v :: v in visited <==> exists i :: i in gone && s[i].resource == v
  }

  lemma VisitsGrow(s: Slots, gone: set<nat>, visited: seq<ResourceRef>, k: nat)
    requires WellFormed(s) && k < |s| && s[k].state.Live? && Visits(s, gone, visited)
    ensures Visits(s, gone + Subtree(s, k) * LiveSet(s), visited + [s[k].resource])
  {
    var more := Subtree(s, k) * LiveSet(s);
    assert k in more;
    forall i | i in more ensures s[i].resource == s[k].resource {
      DescendantsShareResource(s, k, i);
    }
    forall v ensures v in visited + [s[k].resource] <==> exists i :: i in gone + more && s[i].resource == v {
      if v in visited {
        var i :| i in gone && s[i].resource == v;
        assert i in gone + more;
      }
    }
  }

  /** A sweep over the first `k` slots turned `s` into `t`. */
  ghost predicate SweepOk(s: Slots, heads: set<nat>, gone: set<nat>, visited: seq<ResourceRef>, t: Slots, k: nat) {
    Swept(s, heads, gone, k) && t == RevokeAll(s, gone) && Visits(s, gone, visited)
  }

  lemma SweepStart(s: Slots, heads: set<nat>)
    ensures SweepOk(s, heads, {}, [], s, 0)
  {
  }

  lemma SweepStep(s: Slots, heads: set<nat>, gone: set<nat>, visited: seq<ResourceRef>, t: Slots, k: nat)
    requires WellFormed(s) && heads <= LiveSet(s) && k < |s| && SweepOk(s, heads, gone, visited, t, k)
    ensures WellFormed(t) && |t| == |s| && (t[k].state.Live? ==> t[k] == s[k])
    ensures t[k].state.Live? && k in heads ==>
              SweepOk(s, heads, gone + Subtree(s, k) * LiveSet(s), visited + [t[k].resource],
                      RevokeAll(t, Subtree(t, k)), k + 1)
    ensures !(t[k].state.Live? && k in heads) ==> SweepOk(s, heads, gone, visited, t, k + 1)
  {
    RevokeAllKeepsForest(s, gone);
    SweepOne(s, heads, gone, k);
    if t[k].state.Live? && k in heads {
      RevokeOneMore(s, gone, k);
      VisitsGrow(s, gone, visited, k);
    }
  }


  /** The resources of the records whose subtrees a sweep of the first `k` slots asked to revoke. */
  function Visited(s: Slots, p: Record -> bool, k: nat): seq<ResourceRef>
    requires k <= |s|
  {
    if k == 0 then []
    else
      var t := Sweep(s, p, 0, k - 1).0;
      Visited(s, p, k - 1) + if Head(t, p, k - 1) then [t[k - 1].resource] else []
  }

  /** The Live records that match. */
  ghost function Heads(s: Slots, p: Record -> bool): set<nat> {
    set i: nat | i < |s| && Head(s, p, i)
  }

  /** On a well-formed table a sweep revokes exactly the subtrees of the matching records. */
  lemma {:induction false} SweepOnForest(s: Slots, p: Record -> bool, k: nat) returns (gone: set<nat>)
    requires WellFormed(s) && k <= |s|
    ensures SweepOk(s, Heads(s, p), gone, Visited(s, p, k), Sweep(s, p, 0, k).0, k)
  {
    hide WellFormed, SweepOk, RevokeSubtree, RevokeAll, Subtree, LiveSet;
    var heads := Heads(s, p);
    if k == 0 {
      gone := {};
      SweepStart(s, heads);
    } else {
      gone := SweepOnForest(s, p, k - 1);
      var t := Sweep(s, p, 0, k - 1).0;
      HeadsAreLive(s, p);
      SweepStep(s, heads, gone, Visited(s, p, k - 1), t, k - 1);
      assert Head(t, p, k - 1) <==> t[k - 1].state.Live? && k - 1 in heads;
      if Head(t, p, k - 1) {
        SubtreeOnForest(t, SlotId(k - 1, t[k - 1].generation));
        LiveResolves(t, k - 1);
        gone := gone + Subtree(s, k - 1) * LiveSet(s);
      } else {
        assert Visited(s, p, k) == Visited(s, p, k - 1);
      }
    }
  }

  lemma HeadsAreLive(s: Slots, p: Record -> bool)
    ensures Heads(s, p) <= LiveSet(s)
  {
  }

  lemma LiveResolves(s: Slots, k: nat)
    requires k < |s| && s[k].state.Live?
    ensures Resolves(s, SlotId(k, s[k].generation))
  {
  }

  lemma SweptIsChain(s: Slots, holder: u64, gone: set<nat>)
    requires WellFormed(s) && Swept(s, HeldBy(s, holder) * LiveSet(s), gone, |s|)
    ensures gone == ChainHeldBy(s, holder)
  {
    forall i | i in gone ensures i in ChainHeldBy(s, holder) {
      var a :| a in HeldBy(s, holder) * LiveSet(s) && Descends(s, a, i);
      DescendantIsHeldOnChain(s, holder, a, i);
    }
    forall i | i in ChainHeldBy(s, holder) ensures i in gone {
      var a := ChainHolderDescends(s, holder, i);
      ClosedHoldsDescendants(s, gone, a, i);
    }
  }

  lemma HolderTreeDone(s: Slots, holder: u64, gone: set<nat>)
    requires WellFormed(s) && Swept(s, HeldBy(s, holder) * LiveSet(s), gone, |s|)
    ensures gone == ChainHeldBy(s, holder) && gone <= LiveSet(s)
    ensures HeldBy(RevokeAll(s, gone), holder) == HeldBy(s, holder)
    ensures |LiveSet(s)| - |LiveSet(RevokeAll(s, gone))| == |gone|
  {
    SweptIsChain(s, holder, gone);
    RevokeKeepsNames(s, gone, holder, PersistentObject, 0);
    LiveDrop(s, gone);
    assert LiveSet(s) * gone == gone;
  }

  lemma RevokesOnlyLive(s: Slots, which: set<nat>)
    ensures RevokeAll(s, which * LiveSet(s)) == RevokeAll(s, which)
  {
  }

  /** Revoking changes neither holders nor resources. */
  lemma RevokeKeepsNames(s: Slots, which: set<nat>, holder: u64, c: ResourceClass, id: u64)
    ensures HeldBy(RevokeAll(s, which), holder) == HeldBy(s, holder)
    ensures NamingId(RevokeAll(s, which), c, id) == NamingId(s, c, id)
  {
  }

  lemma ResourceTreeDone(s: Slots, c: ResourceClass, id: u64, gone: set<nat>)
    requires WellFormed(s) && Swept(s, NamingId(s, c, id) * LiveSet(s), gone, |s|)
    ensures RevokeAll(s, gone) == RevokeAll(s, NamingId(s, c, id))
    ensures NamingId(RevokeAll(s, gone), c, id) == NamingId(s, c, id)
    ensures |LiveSet(s)| - |LiveSet(RevokeAll(s, gone))| == |LiveSet(s) * NamingId(s, c, id)|
  {
    SweptIsNaming(s, c, id, gone);
    RevokeKeepsNames(s, gone, KERNEL, c, id);
    LiveDrop(s, NamingId(s, c, id));
    RevokesOnlyLive(s, NamingId(s, c, id));
  }

  lemma SweptIsNaming(s: Slots, c: ResourceClass, id: u64, gone: set<nat>)
    requires WellFormed(s) && Swept(s, NamingId(s, c, id) * LiveSet(s), gone, |s|)
    ensures gone == NamingId(s, c, id) * LiveSet(s)
  {
    forall i | i in gone ensures i in NamingId(s, c, id) {
      var a :| a in NamingId(s, c, id) * LiveSet(s) && Descends(s, a, i);
      DescendantsShareResource(s, a, i);
    }
  }

  /** What a whole sweep of a well-formed table has revoked, counted and visited. */
  lemma SweepDone(s: Slots, p: Record -> bool) returns (gone: set<nat>)
    requires WellFormed(s)
    ensures Swept(s, Heads(s, p), gone, |s|)
    ensures Sweep(s, p, 0, |s|) == (RevokeAll(s, gone), |LiveSet(s)| - |LiveSet(RevokeAll(s, gone))|)
    ensures Visits(s, gone, Visited(s, p, |s|))
  {
    hide WellFormed, RevokeAll, LiveSet, Sweep, Swept, Visits, Visited;
    gone := SweepOnForest(s, p, |s|);
    SweepCounts(s, p, 0, |s|);
  }

  lemma HeadsOf(s: Slots, holder: u64, c: ResourceClass, id: u64)
    ensures Heads(s, HoldsAs(holder)) == HeldBy(s, holder) * LiveSet(s)
    ensures Heads(s, NamesId(c, id)) == NamingId(s, c, id) * LiveSet(s)
  {
  }

  /** The holder tree on a well-formed table: everything with the holder on its chain is revoked. */
  lemma HolderTreeOnForest(s: Slots, holder: u64)
    requires WellFormed(s)
    ensures RevokeHolderTree(s, holder)
         == (ReleaseAll(RevokeAll(s, ChainHeldBy(s, holder)), HeldBy(s, holder)), |ChainHeldBy(s, holder)|)
  {
    hide WellFormed, RevokeAll, ReleaseAll, Sweep, Swept, Visits, LiveSet, Heads, HeldBy, ChainHeldBy;
    var gone := SweepDone(s, HoldsAs(holder));
    HeadsOf(s, holder, PersistentObject, 0);
    HolderTreeDone(s, holder, gone);
  }

  lemma HolderTreeVisits(s: Slots, holder: u64)
    requires WellFormed(s)
    ensures forall v ::
              v in Visited(s, HoldsAs(holder), |s|) <==> exists i :: i in ChainHeldBy(s, holder) && s[i].resource == v
  {
    hide WellFormed, RevokeAll, Sweep, Swept, LiveSet, Heads, HeldBy, ChainHeldBy, Visited;
    var gone := SweepDone(s, HoldsAs(holder));
    HeadsOf(s, holder, PersistentObject, 0);
    HolderTreeDone(s, holder, gone);
  }

  lemma ResourceTreeOnForest(s: Slots, c: ResourceClass, id: u64)
    requires WellFormed(s)
    ensures RevokeResourceTree(s, c, id)
         == (ReleaseAll(RevokeAll(s, NamingId(s, c, id)), NamingId(s, c, id)), |LiveSet(s) * NamingId(s, c, id)|)
  {
    hide WellFormed, RevokeAll, ReleaseAll, Sweep, Swept, Visits, LiveSet, Heads, NamingId;
    var gone := SweepDone(s, NamesId(c, id));
    HeadsOf(s, KERNEL, c, id);
    ResourceTreeDone(s, c, id, gone);
  }

  // ---- sweeps on any table ----

  /** `t` is `s` with some Live records revoked. */
  predicate RevokedSome(s: Slots, t: Slots) {
    |s| == |t| && forall i :: 0 <= i < |s| ==> t[i] == s[i] || (s[i].state.Live? && t[i] == RevokedRecord(s[i]))
  }

  lemma RevokedSomeTransitive(s: Slots, t: Slots, u: Slots)
    requires RevokedSome(s, t) && RevokedSome(t, u)
    ensures RevokedSome(s, u)
  {
  }

  /** A revoked record still resolves, so revoking makes no orphan and only takes some away. */
  lemma OrphansShrink(s: Slots, t: Slots, i: nat)
    requires RevokedSome(s, t)
    ensures Orphan(t, i) <==> Orphan(s, i) && t[i].state.Live?
  {
    if i < |s| && s[i].provenance.parent.Some? {
      var h := s[i].provenance.parent.value;
      assert Resolves(t, h) <==> Resolves(s, h);
    }
  }

  lemma SubtreeRevokesSome(s: Slots, h: SlotId)
    ensures RevokedSome(s, RevokeSubtree(s, h).0)
    ensures RevokeSubtree(s, h).1.Success? ==>
              RevokeSubtree(s, h).1.value == |LiveSet(s)| - |LiveSet(RevokeSubtree(s, h).0)|
  {
    if Resolves(s, h) && MarksFrom(s, h.slot).Success? { LiveDrop(s, Marked(MarksFrom(s, h.slot).value)); }
  }

  lemma {:induction false} SweepRevokesSome(s: Slots, p: Record -> bool, lo: nat, hi: nat)
    ensures RevokedSome(s, Sweep(s, p, lo, hi).0)
    decreases hi
  {
    hide RevokeSubtree, RevokedSome;
    SameRevoked(s);
    if hi > lo {
      SweepRevokesSome(s, p, lo, hi - 1);
      var t := Sweep(s, p, lo, hi - 1).0;
      if Head(t, p, hi - 1) {
        SubtreeRevokesSome(t, SlotId(hi - 1, t[hi - 1].generation));
        RevokedSomeTransitive(s, t, Sweep(s, p, lo, hi).0);
      }
    }
  }

  lemma SameRevoked(s: Slots)
    ensures RevokedSome(s, s)
  {
  }

  lemma {:induction false} SweepCounts(s: Slots, p: Record -> bool, lo: nat, hi: nat)
    ensures Sweep(s, p, lo, hi).1 == |LiveSet(s)| - |LiveSet(Sweep(s, p, lo, hi).0)|
    decreases hi
  {
    hide RevokeSubtree, LiveSet;
    if hi > lo {
      SweepCounts(s, p, lo, hi - 1);
      var t := Sweep(s, p, lo, hi - 1).0;
      if Head(t, p, hi - 1) {
        SubtreeRevokesSome(t, SlotId(hi - 1, t[hi - 1].generation));
        RefusedChangesNothing(t, SlotId(hi - 1, t[hi - 1].generation));
      }
    }
  }

  lemma RefusedChangesNothing(s: Slots, h: SlotId)
    ensures RevokeSubtree(s, h).1.Failure? ==> RevokeSubtree(s, h).0 == s
  {
  }

  lemma RevokedSomeAges(s: Slots, t: Slots)
    requires RevokedSome(s, t)
    ensures Ages(s, t)
  {
  }

  /** Tree revocations age the table, whatever its shape. */
  lemma TreesAge(s: Slots, h: SlotId, holder: u64, c: ResourceClass, id: u64)
    ensures Ages(s, RevokeSubtree(s, h).0)
    ensures Ages(s, RevokeHolderTree(s, holder).0)
    ensures Ages(s, RevokeResourceTree(s, c, id).0)
  {
    hide Ages, RevokeSubtree, RevokedSome, ReleaseAll;
    SubtreeRevokesSome(s, h);
    RevokedSomeAges(s, RevokeSubtree(s, h).0);
    SweepThenReleaseAges(s, HoldsAs(holder), HeldBy(Sweep(s, HoldsAs(holder), 0, |s|).0, holder));
    SweepThenReleaseAges(s, NamesId(c, id), NamingId(Sweep(s, NamesId(c, id), 0, |s|).0, c, id));
  }

  lemma SweepThenReleaseAges(s: Slots, p: Record -> bool, which: set<nat>)
    ensures Ages(s, ReleaseAll(Sweep(s, p, 0, |s|).0, which))
  {
    hide Ages, RevokedSome, Sweep;
    var t := Sweep(s, p, 0, |s|).0;
    SweepRevokesSome(s, p, 0, |s|);
    RevokedSomeAges(s, t);
    RevokeAges(t, which);
    AgesTransitive(s, t, ReleaseAll(t, which));
  }

  // ---- what an orphan does to a sweep ----

  /** No sweep step succeeds while an orphan other than its root is in the table. */
  lemma {:induction false} SweepBlocked(s: Slots, p: Record -> bool, lo: nat, hi: nat)
    requires forall k :: lo <= k < hi && Head(s, p, k) ==> exists j: nat :: j != k && Orphan(s, j)
    ensures Sweep(s, p, lo, hi) == (s, 0)
    decreases hi
  {
    hide RevokeSubtree;
    if hi > lo {
      SweepBlocked(s, p, lo, hi - 1);
      if Head(s, p, hi - 1) {
        LiveResolves(s, hi - 1);
        RevokeSubtreeRefusedIff(s, SlotId(hi - 1, s[hi - 1].generation));
      }
    }
  }

  /** Without orphans every step of a sweep succeeds, and no record it came to survives. */
  lemma {:induction false} SweepClears(s: Slots, p: Record -> bool, lo: nat, hi: nat)
    requires forall i: nat :: !Orphan(s, i)
    ensures forall k :: lo <= k < hi ==> !Head(Sweep(s, p, lo, hi).0, p, k)
    ensures forall i: nat :: !Orphan(Sweep(s, p, lo, hi).0, i)
    decreases hi
  {
    hide RevokeSubtree, Orphan;
    SweepRevokesSome(s, p, lo, hi);
    forall i: nat ensures !Orphan(Sweep(s, p, lo, hi).0, i) { OrphansShrink(s, Sweep(s, p, lo, hi).0, i); }
    if hi > lo {
      SweepClears(s, p, lo, hi - 1);
      var t := Sweep(s, p, lo, hi - 1).0;
      if Head(t, p, hi - 1) {
        var h := SlotId(hi - 1, t[hi - 1].generation);
        LiveResolves(t, hi - 1);
        RevokeSubtreeRefusedIff(t, h);
        SubtreeRevokesSome(t, h);
        forall k | lo <= k < hi ensures !Head(Sweep(s, p, lo, hi).0, p, k) {
          if k < hi - 1 { HeadsShrink(t, Sweep(s, p, lo, hi).0, p, k); }
        }
      }
    }
  }

  lemma HeadsShrink(s: Slots, t: Slots, p: Record -> bool, k: nat)
    requires RevokedSome(s, t)
    ensures Head(t, p, k) <==> Head(s, p, k) && t[k].state.Live?
  {
  }

  lemma {:induction false} SweepInTwo(s: Slots, p: Record -> bool, lo: nat, mid: nat, hi: nat)
    requires lo <= mid <= hi
    ensures Sweep(s, p, lo, hi).0 == Sweep(Sweep(s, p, lo, mid).0, p, mid, hi).0
    decreases hi
  {
    hide RevokeSubtree;
    if mid < hi { SweepInTwo(s, p, lo, mid, hi - 1); }
  }

  predicate SoleOrphan(s: Slots, i: nat) {
    Orphan(s, i) && forall j :: 0 <= j < |s| && Orphan(s, j) ==> j == i
  }

  /** A sweep that starts at the only orphan revokes it, and then meets no orphan any more. */
  lemma SweepFromSole(s: Slots, p: Record -> bool, i: nat)
    requires SoleOrphan(s, i) && Head(s, p, i)
    ensures forall k :: i <= k < |s| ==> !Head(Sweep(s, p, i, |s|).0, p, k)
  {
    hide RevokeSubtree;
    var h := SlotId(i, s[i].generation);
    var t := Sweep(s, p, i, i + 1).0;
    assert Sweep(s, p, i, i) == (s, 0);
    LiveResolves(s, i);
    RevokeSubtreeRefusedIff(s, h);
    SubtreeRevokesSome(s, h);
    forall j: nat ensures !Orphan(t, j) { OrphansShrink(s, t, j); }
    SweepInTwo(s, p, i, i + 1, |s|);
    SweepClears(t, p, i + 1, |s|);
    SweepRevokesSome(t, p, i + 1, |s|);
    HeadsShrink(t, Sweep(s, p, i, |s|).0, p, i);
  }

  ghost predicate Cleared(s: Slots, p: Record -> bool) {
    forall k: nat :: !Head(s, p, k)
  }

  /**
   Nothing matches; or nothing is orphaned; or the only orphan matches, and every matching record
   before it falls with the trees swept from there on.
   */
  ghost predicate Clearable(s: Slots, p: Record -> bool) {
    || Cleared(s, p)
    || (forall i: nat :: !Orphan(s, i))
    || (exists i: nat :: SoleOrphan(s, i) && Head(s, p, i) && EarlierFall(s, p, i))
  }

  predicate EarlierFall(s: Slots, p: Record -> bool, i: nat) {
    var t := Sweep(s, p, i, |s|).0;
    forall k :: 0 <= k < i && Head(s, p, k) ==> !Head(t, p, k)
  }

  /** A sweep leaves no matching record Live exactly when the table is clearable. */
  lemma SweepClearsIff(s: Slots, p: Record -> bool)
    ensures Cleared(Sweep(s, p, 0, |s|).0, p) <==> Clearable(s, p)
  {
    hide Sweep, SoleOrphan, EarlierFall, Orphan;
    var t := Sweep(s, p, 0, |s|).0;
    SweepRevokesSome(s, p, 0, |s|);
    if Cleared(s, p) {
      forall k: nat ensures !Head(t, p, k) { HeadsShrink(s, t, p, k); }
    } else if forall i: nat :: !Orphan(s, i) {
      SweepClears(s, p, 0, |s|);
      forall k: nat ensures !Head(t, p, k) { }
    } else if i: nat :| SoleOrphan(s, i) && Head(s, p, i) {
      SweepAroundSole(s, p, i);
      forall j: nat | SoleOrphan(s, j) ensures j == i { OnlySole(s, i, j); }
    } else {
      forall k | 0 <= k < |s| && Head(s, p, k) ensures exists j: nat :: j != k && Orphan(s, j) {
        OtherOrphan(s, k);
      }
      SweepBlocked(s, p, 0, |s|);
    }
  }

  lemma OnlySole(s: Slots, i: nat, j: nat)
    requires SoleOrphan(s, i) && SoleOrphan(s, j)
    ensures i == j
  {
  }

  lemma OtherOrphan(s: Slots, k: nat)
    requires !SoleOrphan(s, k) && exists i: nat :: Orphan(s, i)
    ensures exists j: nat :: j != k && Orphan(s, j)
  {
  }

  lemma SweepAroundSole(s: Slots, p: Record -> bool, i: nat)
    requires SoleOrphan(s, i) && Head(s, p, i)
    ensures Cleared(Sweep(s, p, 0, |s|).0, p) <==> EarlierFall(s, p, i)
  {
    hide Sweep;
    forall k | 0 <= k < i && Head(s, p, k)
      ensures exists j: nat :: j != k && Orphan(s, j)
    {
      assert i != k && Orphan(s, i);
    }
    SweepBlocked(s, p, 0, i);
    SweepInTwo(s, p, 0, i, |s|);
    SweepFromSole(s, p, i);
    var t := Sweep(s, p, i, |s|).0;
    SweepRevokesSome(s, p, i, |s|);
    forall k: nat ensures Head(t, p, k) ==> Head(s, p, k) { HeadsShrink(s, t, p, k); }
  }

  // ---- refusals that a sweep swallows ----

  /** The subtree revocation that a sweep asks for at slot `k` is refused. */
  predicate Refused(s: Slots, p: Record -> bool, k: nat) {
    var t := Sweep(s, p, 0, k).0;
    Head(t, p, k) && RevokeSubtree(t, SlotId(k, t[k].generation)).1.Failure?
  }

  predicate FirstHead(s: Slots, p: Record -> bool, k: nat) {
    Head(s, p, k) && forall j :: 0 <= j < k ==> !Head(s, p, j)
  }

  /** A sweep swallows a refusal exactly when there is an orphan other than its first matching record. */
  lemma SweepRefusesIff(s: Slots, p: Record -> bool, first: nat)
    requires FirstHead(s, p, first)
    ensures (exists k: nat :: Refused(s, p, k)) <==> exists i: nat :: i != first && Orphan(s, i)
  {
    hide Sweep, RevokeSubtree, Orphan;
    SweepBlocked(s, p, 0, first);
    LiveResolves(s, first);
    RevokeSubtreeRefusedIff(s, SlotId(first, s[first].generation));
    if exists i: nat :: i != first && Orphan(s, i) {
      assert Refused(s, p, first);
    } else {
      forall k: nat ensures !Refused(s, p, k) { NotRefused(s, p, first, k); }
    }
  }

  lemma NotRefused(s: Slots, p: Record -> bool, first: nat, k: nat)
    requires FirstHead(s, p, first) && forall i: nat :: i != first ==> !Orphan(s, i)
    ensures !Refused(s, p, k)
  {
    hide RevokeSubtree, Sweep, Orphan;
    var t := Sweep(s, p, 0, k).0;
    SweepRevokesSome(s, p, 0, k);
    HeadsShrink(s, t, p, k);
    if Head(t, p, k) {
      forall i: nat | i != k ensures !Orphan(t, i) {
        OrphansShrink(s, t, i);
        if i == first { FirstFalls(s, p, first, k); }
      }
      LiveResolves(t, k);
      RevokeSubtreeRefusedIff(t, SlotId(k, t[k].generation));
    }
  }

  lemma FirstFalls(s: Slots, p: Record -> bool, first: nat, k: nat)
    requires FirstHead(s, p, first) && first < k && forall i: nat :: i != first ==> !Orphan(s, i)
    ensures !Head(Sweep(s, p, 0, k).0, p, first)
  {
    hide RevokeSubtree;
    SweepBlocked(s, p, 0, first);
    LiveResolves(s, first);
    RevokeSubtreeRefusedIff(s, SlotId(first, s[first].generation));
    var t := Sweep(s, p, 0, first + 1).0;
    SweepInTwo(s, p, 0, first + 1, k);
    SweepRevokesSome(t, p, first + 1, k);
    HeadsShrink(t, Sweep(s, p, 0, k).0, p, first);
  }

  // ---- holders and resources ----

  /** After a holder exits none of its records is Live exactly when the table is clearable of them. */
  lemma HolderExitClearsIff(s: Slots, holder: u64)
    ensures Cleared(RevokeHolderTree(s, holder).0, HoldsAs(holder)) <==> Clearable(s, HoldsAs(holder))
  {
    hide Sweep, Clearable;
    var t := Sweep(s, HoldsAs(holder), 0, |s|).0;
    SweepClearsIff(s, HoldsAs(holder));
    ReleaseKeepsHeads(t, HeldBy(t, holder), HoldsAs(holder));
  }

  lemma ResourceTreeClearsIff(s: Slots, c: ResourceClass, id: u64)
    ensures Cleared(RevokeResourceTree(s, c, id).0, NamesId(c, id)) <==> Clearable(s, NamesId(c, id))
  {
    hide Sweep, Clearable;
    var t := Sweep(s, NamesId(c, id), 0, |s|).0;
    SweepClearsIff(s, NamesId(c, id));
    ReleaseKeepsHeads(t, NamingId(t, c, id), NamesId(c, id));
  }

  lemma ReleaseKeepsHeads(s: Slots, which: set<nat>, p: Record -> bool)
    ensures forall k: nat :: Head(ReleaseAll(s, which), p, k) <==> Head(s, p, k)
  {
  }

  /** One Live record of somebody else without its parent, and a holder's exit revokes nothing. */
  lemma OrphanBlocksHolderExit(s: Slots, holder: u64, i: nat)
    requires Orphan(s, i) && s[i].holder != holder
    ensures RevokeHolderTree(s, holder) == (ReleaseAll(s, HeldBy(s, holder)), 0)
    ensures |RevokeHolderTree(s, holder).0| == |s|
    ensures forall k :: 0 <= k < |s| && s[k].state.Live? ==> RevokeHolderTree(s, holder).0[k] == s[k]
  {
    forall k | 0 <= k < |s| && Head(s, HoldsAs(holder), k) ensures exists j: nat :: j != k && Orphan(s, j) {
      assert i != k && Orphan(s, i);
    }
    SweepBlocked(s, HoldsAs(holder), 0, |s|);
  }

  lemma OrphanBlocksResourceTree(s: Slots, c: ResourceClass, id: u64, i: nat)
    requires Orphan(s, i) && !(s[i].resource.class_ == c && s[i].resource.id == id)
    ensures RevokeResourceTree(s, c, id) == (ReleaseAll(s, NamingId(s, c, id)), 0)
    ensures forall k :: 0 <= k < |s| && s[k].state.Live? ==> RevokeResourceTree(s, c, id).0[k] == s[k]
  {
    forall k | 0 <= k < |s| && Head(s, NamesId(c, id), k) ensures exists j: nat :: j != k && Orphan(s, j) {
      assert i != k && Orphan(s, i);
    }
    SweepBlocked(s, NamesId(c, id), 0, |s|);
  }

  /**
   Such a table is reached from an empty one: an owner delegates to another holder and is dropped. The
   capability of a third holder can then no longer be revoked as a tree, and outlives the holder's exit.
   */
  lemma DroppedOwnerBlocksExit(owner: u64, other: u64, third: u64, id: u64)
    requires owner != other && other != KERNEL && third != owner && third != other
    ensures var empty := [EMPTY_RECORD, EMPTY_RECORD, EMPTY_RECORD];
            var resource := ResourceRef(PersistentObject, id, 0);
            var (granted, root) := Grant(empty, owner, resource, {Read, Delegate}, Root(owner));
            && root.Success?
            && var (delegated, child) := DelegateTo(granted, owner, root.value, other, {Read});
            && child.Success?
            && var (full, last) := Grant(delegated, third, resource, {Read}, Root(third));
            && last.Success?
            && var s := DropAll(full, HeldBy(full, owner));
            && Orphan(s, child.value.slot) && RevokeSubtree(s, last.value) == (s, Failure(StaleHandle))
            && last.value.slot < |RevokeHolderTree(s, third).0|
            && RevokeHolderTree(s, third).0[last.value.slot].state.Live?
            && RevokeHolderTree(s, third).0[last.value.slot].holder == third
  {
    hide Install, RevokeSubtree, RevokeHolderTree, Sweep;
    var empty: Slots := [EMPTY_RECORD, EMPTY_RECORD, EMPTY_RECORD];
    var resource := ResourceRef(PersistentObject, id, 0);
    InstallFirst(empty, Record(Live, owner, resource, {Read, Delegate}, Root(owner), 0), 0);
    var (granted, root) := Grant(empty, owner, resource, {Read, Delegate}, Root(owner));
    InstallFirst(granted, Record(Live, other, resource, {Read}, Provenance(Some(root.value), 1, owner), 0), 1);
    var (delegated, child) := DelegateTo(granted, owner, root.value, other, {Read});
    InstallFirst(delegated, Record(Live, third, resource, {Read}, Root(third), 0), 2);
    var (full, last) := Grant(delegated, third, resource, {Read}, Root(third));
    var s := DropAll(full, HeldBy(full, owner));
    assert s[0] == EMPTY_RECORD.(generation := 2) && s[1] == full[1] && s[2] == full[2];
    BlockedBySlot1(s, third);
  }

  lemma BlockedBySlot1(s: Slots, third: u64)
    requires |s| == 3 && !s[0].state.Live? && s[1].state.Live? && s[1].provenance.parent.Some? && s[1].holder != third
    requires RecordOf(s, s[1].provenance.parent.value) == Failure(StaleHandle)
    requires s[2].state.Live? && s[2].provenance.parent.None?
    ensures Orphan(s, 1) && RevokeSubtree(s, SlotId(2, s[2].generation)) == (s, Failure(StaleHandle))
    ensures |RevokeHolderTree(s, third).0| == 3 && RevokeHolderTree(s, third).0[2] == s[2]
  {
    hide RevokeSubtree, RevokeHolderTree, ReleaseAll, HeldBy;
    assert Orphan(s, 1);
    RefusedByOne(s, SlotId(2, s[2].generation), 1);
    OrphanBlocksHolderExit(s, third, 1);
  }

  lemma RefusedByOne(s: Slots, h: SlotId, i: nat)
    requires Resolves(s, h) && i != h.slot && Orphan(s, i)
    requires forall j :: 0 <= j < |s| && j != i && j != h.slot ==> !Orphan(s, j)
    ensures RevokeSubtree(s, h) == (s, Failure(RecordOf(s, s[i].provenance.parent.value).error))
  {
    hide RevokeSubtree;
    RevokeSubtreeRefusedIff(s, h);
  }

  /** An install into the first empty slot behind Live ones. */
  lemma InstallFirst(s: Slots, r: Record, k: nat)
    requires k < |s| && Usable(s[k]) && (forall j :: 0 <= j < k ==> s[j].state.Live?)
    requires RightsValid(r.resource.class_, r.rights)
    ensures Install(s, r)
         == (s[k := r.(state := Live, generation := s[k].generation + 1)], Success(SlotId(k, s[k].generation + 1)))
  {
    assert FirstUsable(s) == k;
    assert RetireBefore(s, k) == s;
  }
}
