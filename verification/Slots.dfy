/**
 The capability table as a value: a sequence of records, one per slot. Each function here is the
 effect of one table operation, stated slot by slot; the class `CapabilityTable` computes them
 with loops.
 */
module SlotOps {
  import opened Wrappers
  import opened Capability

  type Slots = seq<Record>

  // ---- lookup ----

  function RecordOf(s: Slots, h: SlotId): Result<Record, CapabilityError> {
    if h.slot >= |s| then Failure(InvalidHandle)
    else if s[h.slot].state.Empty? then
      Failure(if s[h.slot].generation == 0 then InvalidHandle else StaleHandle)
    else if s[h.slot].state.Retired? || s[h.slot].generation != h.generation then Failure(StaleHandle)
    else Success(s[h.slot])
  }

  predicate Resolves(s: Slots, h: SlotId) {
    RecordOf(s, h).Success?
  }

  function AuthorizeAt(s: Slots, holder: u64, h: SlotId, resource: ResourceRef, required: Rights)
    : Result<Record, CapabilityError>
  {
    match RecordOf(s, h)
    case Failure(e) => Failure(e)
    case Success(r) =>
      match Authorize(r, h, holder, resource, required)
      case Failure(e) => Failure(e)
      case Success(_) => Success(r)
  }

  function LiveSet(s: Slots): set<nat> {
    set i: nat | i < |s| && s[i].state.Live?
  }

  // ---- installing ----

  predicate Usable(r: Record) {
    r.state.Empty? && r.generation != U32_MAX
  }

  /** The slot a grant takes: the first usable one, or `|s|`. */
  function FirstUsable(s: Slots): (k: nat)
    ensures k <= |s|
    ensures forall j :: 0 <= j < k ==> !Usable(s[j])
    ensures k < |s| ==> Usable(s[k])
  {
    if s == [] || Usable(s[0]) then 0
    else
      var k := FirstUsable(s[1..]);
      assert forall j :: 0 <= j < k + 1 ==> !Usable(s[j]) by {
        forall j | 0 <= j < k + 1 ensures !Usable(s[j]) {
          if j > 0 { assert s[j] == s[1..][j - 1]; }
        }
      }
      k + 1
  }

  /** Empty slots before `k` whose generation is exhausted retire. */
  function RetireBefore(s: Slots, k: nat): Slots {
    seq(|s|, i requires 0 <= i < |s| =>
      if i < k && s[i].state.Empty? && s[i].generation == U32_MAX then s[i].(state := Retired) else s[i])
  }

  function Install(s: Slots, r: Record): (Slots, Result<SlotId, CapabilityError>) {
    if !RightsValid(r.resource.class_, r.rights) then (s, Failure(InvalidRights))
    else
      var k := FirstUsable(s);
      if k == |s| then (RetireBefore(s, k), Failure(CapacityExhausted))
      else
        var g := s[k].generation + 1;
        (RetireBefore(s, k)[k := r.(state := Live, generation := g)], Success(SlotId(k, g)))
  }

  lemma InstallAddsLive(s: Slots, r: Record)
    ensures match Install(s, r).1
            case Failure(_) => LiveSet(Install(s, r).0) == LiveSet(s)
            case Success(h) => LiveSet(Install(s, r).0) == LiveSet(s) + {h.slot} && h.slot !in LiveSet(s)
  {
    var t := RetireBefore(s, FirstUsable(s));
    assert forall i :: 0 <= i < |s| ==> t[i].state.Live? == s[i].state.Live?;
    assert LiveSet(t) == LiveSet(s);
  }

  /** A grant takes the provenance it is given: `Root(holder)` for a root. */
  function Grant(s: Slots, holder: u64, resource: ResourceRef, rights: Rights, provenance: Provenance)
    : (Slots, Result<SlotId, CapabilityError>)
  {
    Install(s, Record(Live, holder, resource, rights, provenance, 0))
  }

  /** The child record a delegation installs, or why it is refused. */
  function ChildRecord(s: Slots, source: u64, parent: SlotId, target: u64, rights: Rights)
    : Result<Record, CapabilityError>
  {
    match RecordOf(s, parent)
    case Failure(e) => Failure(e)
    case Success(r) =>
      var granted := ValidateDelegation(r, parent, source, rights);
      if granted.Failure? then Failure(granted.error)
      else if target == KERNEL then Failure(InvalidRights)
      else
        match ChildOf(parent, r.provenance)
        case Failure(e) => Failure(e)
        case Success(p) => Success(Record(Live, target, r.resource, granted.value, p, 0))
  }

  function DelegateTo(s: Slots, source: u64, parent: SlotId, target: u64, rights: Rights)
    : (Slots, Result<SlotId, CapabilityError>)
  {
    match ChildRecord(s, source, parent, target, rights)
    case Failure(e) => (s, Failure(e))
    case Success(r) => Install(s, r)
  }

  // ---- revoking and releasing ----

  function RevokedRecord(r: Record): Record {
    r.(state := Revoked, rights := {})
  }

  /** A released slot is Empty with a larger generation, or Retired at the last generation. */
  function ReleasedRecord(r: Record): Record {
    if r.generation == U32_MAX then EMPTY_RECORD.(state := Retired, generation := r.generation)
    else EMPTY_RECORD.(generation := r.generation + 1)
  }

  function RevokeSlot(s: Slots, k: nat): Slots {
    if k < |s| && s[k].state.Live? then s[k := RevokedRecord(s[k])] else s
  }

  function ReleaseSlot(s: Slots, k: nat): Slots {
    if k < |s| && s[k].state.Revoked? then s[k := ReleasedRecord(s[k])] else s
  }

  /** Every Live slot in `which` becomes Revoked. */
  function RevokeAll(s: Slots, which: set<nat>): Slots {
    seq(|s|, i requires 0 <= i < |s| => if i in which && s[i].state.Live? then RevokedRecord(s[i]) else s[i])
  }

  /** Every Revoked slot in `which` is released. */
  function ReleaseAll(s: Slots, which: set<nat>): Slots {
    seq(|s|, i requires 0 <= i < |s| => if i in which && s[i].state.Revoked? then ReleasedRecord(s[i]) else s[i])
  }

  function RevokedSet(s: Slots): set<nat> {
    set i: nat | i < |s| && s[i].state.Revoked?
  }

  function HeldBy(s: Slots, holder: u64): set<nat> {
    set i: nat | i < |s| && s[i].holder == holder
  }

  function Naming(s: Slots, resource: ResourceRef): set<nat> {
    set i: nat | i < |s| && s[i].resource == resource
  }

  function NamingId(s: Slots, c: ResourceClass, id: u64): set<nat> {
    set i: nat | i < |s| && s[i].resource.class_ == c && s[i].resource.id == id
  }

  function Dropped(r: Record, drop: bool): Record {
    if drop && r.state.Live? then ReleasedRecord(RevokedRecord(r)) else r
  }

  /** Live records among `which` go straight back to the pool; Revoked ones stay. */
  function DropAll(s: Slots, which: set<nat>): Slots {
    var live := which * LiveSet(s);
    ReleaseAll(RevokeAll(s, live), live)
  }

  function RevokeHandle(s: Slots, h: SlotId): (Slots, Result<bool, CapabilityError>) {
    if h.slot >= |s| then (s, Failure(InvalidHandle))
    else if s[h.slot].state.Empty? && s[h.slot].generation == 0 then (s, Success(false))
    else if s[h.slot].generation != h.generation || s[h.slot].state.Empty? then (s, Failure(StaleHandle))
    else (RevokeSlot(s, h.slot), Success(s[h.slot].state.Live?))
  }

  // ---- the delegation forest ----

  /** Slot `i` is `root` or a Live record whose chain of parents reaches `root`. */
  predicate Descends(s: Slots, root: nat, i: nat)
    requires i < |s|
    decreases s[i].provenance.depth
  {
    i == root ||
    (s[i].state.Live? && HasParent(s, i) && Descends(s, root, ParentSlot(s, i)))
  }

  /** Slot `i` or one of its ancestors is held by `holder`. */
  predicate HeldOnChain(s: Slots, holder: u64, i: nat)
    requires i < |s|
    decreases s[i].provenance.depth
  {
    s[i].holder == holder || (HasParent(s, i) && HeldOnChain(s, holder, ParentSlot(s, i)))
  }

  /** The record names a parent that resolves and is one level nearer the root. */
  predicate HasParent(s: Slots, i: nat)
    requires i < |s|
  {
    && s[i].provenance.parent.Some?
    && Resolves(s, s[i].provenance.parent.value)
    && s[ParentSlot(s, i)].provenance.depth < s[i].provenance.depth
  }

  function ParentSlot(s: Slots, i: nat): nat
    requires i < |s| && s[i].provenance.parent.Some?
  {
    s[i].provenance.parent.value.slot
  }

  function Subtree(s: Slots, root: nat): set<nat> {
    set i: nat | i < |s| && Descends(s, root, i)
  }

  function ChainHeldBy(s: Slots, holder: u64): set<nat> {
    set i: nat | i < |s| && s[i].state.Live? && HeldOnChain(s, holder, i)
  }

  // ---- revoking trees, as the code does on every table ----

  /** A Live record whose parent handle does not resolve. */
  predicate Orphan(s: Slots, i: nat) {
    i < |s| && s[i].state.Live? && s[i].provenance.parent.Some? && !Resolves(s, s[i].provenance.parent.value)
  }

  type Marks = seq<bool>

  /** Looks at slot `i`: a Live record outside the set joins it if its parent is in it. */
  function MarkOne(s: Slots, marks: Marks, i: nat): (r: Result<Marks, CapabilityError>)
    requires i < |s| == |marks|
    ensures r.Success? ==> |r.value| == |s|
  {
    if marks[i] || !s[i].state.Live? || s[i].provenance.parent.None? then Success(marks)
    else
      match RecordOf(s, s[i].provenance.parent.value)
      case Failure(e) => Failure(e)
      case Success(_) => Success(if marks[ParentSlot(s, i)] then marks[i := true] else marks)
  }

  /** One pass over the first `k` slots. */
  function MarkTo(s: Slots, marks: Marks, k: nat): (r: Result<Marks, CapabilityError>)
    requires k <= |s| == |marks|
    ensures r.Success? ==> |r.value| == |s|
  {
    if k == 0 then Success(marks)
    else
      match MarkTo(s, marks, k - 1)
      case Failure(e) => Failure(e)
      case Success(m) => MarkOne(s, m, k - 1)
  }

  function MarkPasses(s: Slots, marks: Marks, n: nat): (r: Result<Marks, CapabilityError>)
    requires |s| == |marks|
    ensures r.Success? ==> |r.value| == |s|
  {
    if n == 0 then Success(marks)
    else
      match MarkPasses(s, marks, n - 1)
      case Failure(e) => Failure(e)
      case Success(m) => MarkTo(s, m, |s|)
  }

  function OnlyMark(s: Slots, root: nat): Marks {
    seq(|s|, i => i == root)
  }

  /** What the passes mark from a root: one pass more than delegation is deep. */
  function MarksFrom(s: Slots, root: nat): (r: Result<Marks, CapabilityError>)
    ensures r.Success? ==> |r.value| == |s|
  {
    MarkPasses(s, OnlyMark(s, root), MAX_DELEGATION_DEPTH + 1)
  }

  /** The marked slots. */
  function Marked(marks: Marks): set<nat> {
    set i: nat | i < |marks| && marks[i]
  }

  function RevokeSubtree(s: Slots, h: SlotId): (Slots, Result<nat, CapabilityError>) {
    match RecordOf(s, h)
    case Failure(e) => (s, Failure(e))
    case Success(_) =>
      match MarksFrom(s, h.slot)
      case Failure(e) => (s, Failure(e))
      case Success(marks) => (RevokeAll(s, Marked(marks)), Success(|LiveSet(s) * Marked(marks)|))
  }

  /** The Live record in slot `k` matches: a sweep revokes its subtree. */
  predicate Head(s: Slots, p: Record -> bool, k: nat) {
    k < |s| && s[k].state.Live? && p(s[k])
  }

  /** The subtree of the record in slot `k`; a refusal counts as nothing revoked. */
  function RevokeAtSlot(s: Slots, k: nat): (Slots, nat)
    requires k < |s|
  {
    var (t, r) := RevokeSubtree(s, SlotId(k, s[k].generation));
    (t, if r.Success? then r.value else 0)
  }

  /** Sweeps the slots from `lo` up to `hi`, revoking the subtree of each matching record still Live. */
  function Sweep(s: Slots, p: Record -> bool, lo: nat, hi: nat): (Slots, nat)
    decreases hi
  {
    if hi <= lo then (s, 0)
    else
      var (t, n) := Sweep(s, p, lo, hi - 1);
      if Head(t, p, hi - 1) then
        var (u, m) := RevokeAtSlot(t, hi - 1);
        (u, n + m)
      else (t, n)
  }

  function HoldsAs(holder: u64): Record -> bool {
    (r: Record) => r.holder == holder
  }

  function NamesId(c: ResourceClass, id: u64): Record -> bool {
    (r: Record) => r.resource.class_ == c && r.resource.id == id
  }

  /** A holder exits: its trees are swept, then its own slots are released. */
  function RevokeHolderTree(s: Slots, holder: u64): (Slots, nat) {
    var (t, n) := Sweep(s, HoldsAs(holder), 0, |s|);
    (ReleaseAll(t, HeldBy(t, holder)), n)
  }

  function RevokeResourceTree(s: Slots, c: ResourceClass, id: u64): (Slots, nat) {
    var (t, n) := Sweep(s, NamesId(c, id), 0, |s|);
    (ReleaseAll(t, NamingId(t, c, id)), n)
  }
}
