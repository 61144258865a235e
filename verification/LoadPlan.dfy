/** Validated ELF load plans. */
module LoadPlans {
  import opened Wrappers
  import opened Arith
  import opened Bits

  const MAX_LOAD_SEGMENTS: nat := 16
  const PHDR_SIZE: nat := 56
  const CANONICAL_LIMIT: nat := 0x8000_0000_0000

  datatype LoadPlanError =
    | TruncatedProgramHeaders | FileszGreaterThanMemsz | FileRangeOverflow | FileRangeBeyondEof | VaddrRangeOverflow
    | NonCanonicalVaddr | OutOfWindowVaddr | PageZero | AlignmentViolation | CongruenceViolation | SegmentOverlap
    | SegmentBudgetExceeded | EntryOutsideExecutable | WriteExecuteConflict | NoLoadSegments | UnsupportedType
    | ArithmeticOverflow

  function PageCount(bytes: nat, pageSize: u64): nat
    requires pageSize > 0
  {
    DivNonnegative(bytes, pageSize);
    bytes / pageSize
  }

  datatype LoadSegment = LoadSegment(vaddr: u64, memsz: u64, fileOffset: u64, filesz: u64, align: u64,
                                     read: bool, write: bool, execute: bool)
  {
    /** First page address and page count of `[vaddr, vaddr + memsz)`. */
    function PageSpan(pageSize: u64): Result<(nat, nat), LoadPlanError> {
      if !IsPowerOfTwo(pageSize) then Failure(AlignmentViolation)
      else if memsz == 0 then Success((AlignDown(vaddr, pageSize), 0))
      else if vaddr + memsz > U64_MAX then Failure(VaddrRangeOverflow)
      else
        var first := AlignDown(vaddr, pageSize);
        match AlignUp(vaddr + memsz, pageSize)
        case None => Failure(ArithmeticOverflow)
        case Some(last) =>
          if last < first then Failure(ArithmeticOverflow) else Success((first, PageCount(last - first, pageSize)))
    }

    predicate Holds(a: int) { vaddr <= a < vaddr + memsz }
  }

  const NO_SEGMENT := LoadSegment(0, 0, 0, 0, 0, false, false, false)

  datatype Policy = Policy(lo: u64, hi: u64, maxSegments: nat, pageSize: u64, rejectWriteExecute: bool,
                           rejectPageZero: bool,
                           allowedTypes: seq<nat>)

  /** A program header by its type; only loads carry a segment. */
  datatype ProgramHeader = Load(segment: LoadSegment) | Dynamic | Interp | Other

  /** The decoded file: `headers` are the entries of the program-header table at `phoff`. */
  datatype Image = Image(fileLen: u64, eType: nat, entry: u64, phoff: u64, headers: seq<ProgramHeader>)

  datatype LoadPlan = LoadPlan(entry: u64, phoff: u64, phdrVaddr: Option<u64>, segments: seq<LoadSegment>,
                               hasInterp: bool, hasDynamic: bool)

  // ---- one segment ----

  function ValidateSegment(s: LoadSegment, fileLen: u64, policy: Policy): Result<(), LoadPlanError> {
    if s.filesz > s.memsz then Failure(FileszGreaterThanMemsz)
    else if s.fileOffset + s.filesz > U64_MAX then Failure(FileRangeOverflow)
    else if s.fileOffset + s.filesz > fileLen then Failure(FileRangeBeyondEof)
    else if s.vaddr + s.memsz > U64_MAX then Failure(VaddrRangeOverflow)
    else if s.vaddr >= CANONICAL_LIMIT || (s.memsz > 0 && s.vaddr + s.memsz - 1 >= CANONICAL_LIMIT) then
      Failure(NonCanonicalVaddr)
    else if s.vaddr < policy.lo || s.vaddr + s.memsz > policy.hi then Failure(OutOfWindowVaddr)
    else
      var pageZero :=
        if !policy.rejectPageZero then Success(())
        else match s.PageSpan(policy.pageSize)
          case Failure(e) => Failure(e)
          case Success((first, count)) => if count > 0 && first == 0 then Failure(PageZero) else Success(());
      if pageZero.Failure? then pageZero
      else if s.align > 1 && !IsPowerOfTwo(s.align) then Failure(AlignmentViolation)
      else if s.align > 1 && s.fileOffset % s.align != s.vaddr % s.align then Failure(CongruenceViolation)
      else if policy.rejectWriteExecute && s.write && s.execute then Failure(WriteExecuteConflict)
      else Success(())
  }

  // ---- the whole plan ----

  /** Two segments share a byte of memory. */
  ghost predicate Overlap(a: LoadSegment, b: LoadSegment) {
    exists x: int :: a.Holds(x) && b.Holds(x)
  }

  ghost predicate Disjoint(segments: seq<LoadSegment>) {
    forall i, j :: 0 <= i < j < |segments| ==> !Overlap(segments[i], segments[j])
  }

  /** The load segments of a header table, in order. */
  function Loads(headers: seq<ProgramHeader>): seq<LoadSegment> {
    if headers == [] then []
    else
      var before := Loads(headers[..|headers| - 1]);
      match headers[|headers| - 1]
      case Load(s) => before + [s]
      case _ => before
  }

  predicate EntryExecutable(entry: u64, segments: seq<LoadSegment>) {
    exists i :: 0 <= i < |segments| && segments[i].execute && segments[i].Holds(entry)
  }

  predicate AllValid(segments: seq<LoadSegment>, fileLen: u64, policy: Policy) {
    forall i :: 0 <= i < |segments| ==> ValidateSegment(segments[i], fileLen, policy).Success?
  }

  /** Everything a file must satisfy, in no particular order. */
  ghost predicate Acceptable(image: Image, policy: Policy) {
    var loads := Loads(image.headers);
    && IsPowerOfTwo(policy.pageSize) && policy.lo < policy.hi
    && (policy.allowedTypes == [] || image.eType in policy.allowedTypes)
    && image.phoff + |image.headers| * PHDR_SIZE <= image.fileLen && image.phoff % 8 == 0
    && 0 < |loads| <= MAX_LOAD_SEGMENTS && |loads| <= policy.maxSegments
    && AllValid(loads, image.fileLen, policy)
    && Disjoint(loads) && EntryExecutable(image.entry, loads)
  }

  /** The file bytes of the segment hold the offset. */
  predicate HoldsOffset(s: LoadSegment, phoff: u64) {
    s.fileOffset <= phoff < s.fileOffset + s.filesz
  }

  /** Address of the program-header table when some segment's file bytes hold its start. */
  function PhdrAddress(phoff: u64, segments: seq<LoadSegment>): Option<u64> {
    if segments == [] then None
    else
      var s := segments[0];
      if s.fileOffset + s.filesz > U64_MAX then None
      else if HoldsOffset(s, phoff) then
        if s.vaddr + (phoff - s.fileOffset) > U64_MAX then None else Some(s.vaddr + (phoff - s.fileOffset))
      else
        PhdrAddress(phoff, segments[1..])
  }

  /** Segment `i` is the first that holds the offset, and every file range up to it is representable. */
  predicate FirstHolding(phoff: u64, segments: seq<LoadSegment>, i: nat) {
    && i < |segments| && HoldsOffset(segments[i], phoff)
    && (forall a :: 0 <= a < i ==> !HoldsOffset(segments[a], phoff))
    && (forall a :: 0 <= a <= i ==> segments[a].fileOffset + segments[a].filesz <= U64_MAX)
  }

  /** An address is reported exactly when a first segment holds the table and the address fits, and it is there. */
  lemma {:induction false} PhdrAddressIff(phoff: u64, segments: seq<LoadSegment>)
    ensures (exists i: nat :: FirstHolding(phoff, segments, i)) || PhdrAddress(phoff, segments).None?
    ensures forall i: nat :: FirstHolding(phoff, segments, i) ==>
              var address := segments[i].vaddr + (phoff - segments[i].fileOffset);
              PhdrAddress(phoff, segments) == if address <= U64_MAX then Some(address) else None
  {
    if segments != [] {
      var rest := segments[1..];
      PhdrAddressIff(phoff, rest);
      if segments[0].fileOffset + segments[0].filesz <= U64_MAX {
        if HoldsOffset(segments[0], phoff) {
          assert FirstHolding(phoff, segments, 0);
        } else {
          forall i: nat | i > 0 ensures FirstHolding(phoff, segments, i) <==> FirstHolding(phoff, rest, i - 1) {
            LaterHolding(phoff, segments, i);
          }
          if exists i: nat :: FirstHolding(phoff, rest, i) {
            var i: nat :| FirstHolding(phoff, rest, i);
            assert FirstHolding(phoff, segments, i + 1);
          }
        }
      }
    }
  }

  lemma LaterHolding(phoff: u64, segments: seq<LoadSegment>, i: nat)
    requires segments != [] && i > 0 && !HoldsOffset(segments[0], phoff)
    requires segments[0].fileOffset + segments[0].filesz <= U64_MAX
    ensures FirstHolding(phoff, segments, i) <==> FirstHolding(phoff, segments[1..], i - 1)
  {
    hide HoldsOffset;
    var rest := segments[1..];
    if FirstHolding(phoff, segments, i) {
      forall a | 0 <= a <= i - 1 ensures rest[a] == segments[a + 1] { }
    }
    if FirstHolding(phoff, rest, i - 1) {
      forall a | 0 < a <= i ensures segments[a] == rest[a - 1] { }
    }
  }

  /** In a valid plan the table has an address exactly when some segment's file bytes hold its start. */
  lemma ValidPhdrAddress(phoff: u64, segments: seq<LoadSegment>, fileLen: u64, policy: Policy)
    requires AllValid(segments, fileLen, policy)
    ensures PhdrAddress(phoff, segments).Some? <==> exists i :: 0 <= i < |segments| && HoldsOffset(segments[i], phoff)
  {
    PhdrAddressIff(phoff, segments);
    forall a | 0 <= a < |segments|
      ensures segments[a].fileOffset + segments[a].filesz <= U64_MAX
      ensures HoldsOffset(segments[a], phoff) ==> segments[a].vaddr + (phoff - segments[a].fileOffset) <= U64_MAX
    {
      assert ValidateSegment(segments[a], fileLen, policy).Success?;
    }
    if exists i :: 0 <= i < |segments| && HoldsOffset(segments[i], phoff) {
      var i :| 0 <= i < |segments| && HoldsOffset(segments[i], phoff);
      var first := LeastHolding(phoff, segments, i);
      assert FirstHolding(phoff, segments, first);
    }
  }

  lemma LeastHolding(phoff: u64, segments: seq<LoadSegment>, i: nat) returns (first: nat)
    requires i < |segments| && HoldsOffset(segments[i], phoff)
    ensures first <= i && HoldsOffset(segments[first], phoff)
    ensures forall a :: 0 <= a < first ==> !HoldsOffset(segments[a], phoff)
  {
    if a :| 0 <= a < i && HoldsOffset(segments[a], phoff) {
      first := LeastHolding(phoff, segments, a);
    } else {
      first := i;
    }
  }

  lemma OverlapIff(a: LoadSegment, b: LoadSegment)
    ensures Overlap(a, b) <==> a.memsz > 0 && b.memsz > 0 && a.vaddr < b.vaddr + b.memsz && b.vaddr < a.vaddr + a.memsz
  {
    if a.memsz > 0 && b.memsz > 0 && a.vaddr < b.vaddr + b.memsz && b.vaddr < a.vaddr + a.memsz {
      var x := if a.vaddr < b.vaddr then b.vaddr else a.vaddr;
      assert a.Holds(x) && b.Holds(x);
    }
  }

  predicate EndsFit(segments: seq<LoadSegment>) {
    forall i :: 0 <= i < |segments| && segments[i].memsz > 0 ==> segments[i].vaddr + segments[i].memsz <= U64_MAX
  }

  method DetectOverlaps(segments: seq<LoadSegment>) returns (r: Result<(), LoadPlanError>)
    ensures r.Success? <==> EndsFit(segments) && Disjoint(segments)
    ensures EndsFit(segments) && r.Failure? ==> r.error == SegmentOverlap
  {
    for i := 0 to |segments|
      invariant forall a :: 0 <= a < i && segments[a].memsz > 0 ==> segments[a].vaddr + segments[a].memsz <= U64_MAX
      invariant forall a, b :: 0 <= a < i && a < b < |segments| ==> !Overlap(segments[a], segments[b])
    {
      var left := segments[i];
      if left.memsz > 0 {
        if left.vaddr + left.memsz > U64_MAX { return Failure(VaddrRangeOverflow); }
        for j := i + 1 to |segments|
          invariant forall b :: i < b < j ==> !Overlap(left, segments[b])
        {
          var right := segments[j];
          OverlapIff(left, right);
          if right.memsz > 0 {
            if right.vaddr + right.memsz > U64_MAX { return Failure(VaddrRangeOverflow); }
            if left.vaddr < right.vaddr + right.memsz && right.vaddr < left.vaddr + left.memsz {
              return Failure(SegmentOverlap);
            }
          }
        }
      }
    }
    r := Success(());
  }

  method EntryIsExecutable(entry: u64, segments: seq<LoadSegment>) returns (r: Result<(), LoadPlanError>)
    ensures EndsFit(segments) ==>
              r == if EntryExecutable(entry, segments) then Success(()) else Failure(EntryOutsideExecutable)
    ensures r.Success? ==> EntryExecutable(entry, segments)
  {
    for i := 0 to |segments|
      invariant forall a :: 0 <= a < i ==> !(segments[a].execute && segments[a].Holds(entry))
    {
      if segments[i].execute && segments[i].memsz > 0 {
        if segments[i].vaddr + segments[i].memsz > U64_MAX { return Failure(VaddrRangeOverflow); }
        if segments[i].vaddr <= entry < segments[i].vaddr + segments[i].memsz { return Success(()); }
      }
    }
    r := Failure(EntryOutsideExecutable);
  }

  lemma {:induction false} LoadsPrefix(headers: seq<ProgramHeader>, k: nat)
    requires k <= |headers|
    ensures |Loads(headers[..k])| <= |Loads(headers)| && Loads(headers[..k]) == Loads(headers)[..|Loads(headers[..k])|]
    decreases |headers|
  {
    if k < |headers| {
      LoadsPrefix(headers[..|headers| - 1], k);
      assert headers[..|headers| - 1][..k] == headers[..k];
    } else {
      assert headers[..k] == headers;
    }
  }

  /** The load header at `i` is the next load of the table. */
  lemma NextLoad(headers: seq<ProgramHeader>, i: nat, segment: LoadSegment)
    requires i < |headers| && headers[i] == Load(segment)
    ensures var before := Loads(headers[..i]);
            && Loads(headers[..i + 1]) == before + [segment]
            && |before| < |Loads(headers)| && Loads(headers)[..|before|] == before
            && Loads(headers)[|before|] == segment
  {
    assert headers[..i + 1][..i] == headers[..i];
    LoadsPrefix(headers, i + 1);
    hide Loads;
    var before, upTo := Loads(headers[..i]), Loads(headers[..i + 1]);
    assert upTo == Loads(headers)[..|upTo|] && upTo[..|before|] == before;
  }

  /** Load `i` is the first at fault: it is invalid, for reason `e`, or exceeds the budget. */
  predicate FaultAt(loads: seq<LoadSegment>, fileLen: u64, policy: Policy, i: nat, e: LoadPlanError) {
    && i < |loads| && i <= policy.maxSegments && i <= MAX_LOAD_SEGMENTS
    && AllValid(loads[..i], fileLen, policy)
    && match ValidateSegment(loads[i], fileLen, policy)
       case Failure(why) => e == why
       case Success(_) => e == SegmentBudgetExceeded && (i == policy.maxSegments || i == MAX_LOAD_SEGMENTS)
  }

  /** The headers are refused for reason `e`. */
  ghost predicate Faulty(loads: seq<LoadSegment>, fileLen: u64, policy: Policy, e: LoadPlanError) {
    exists i: nat :: FaultAt(loads, fileLen, policy, i, e)
  }

  lemma IsFaulty(loads: seq<LoadSegment>, fileLen: u64, policy: Policy, i: nat, e: LoadPlanError)
    requires FaultAt(loads, fileLen, policy, i, e)
    ensures Faulty(loads, fileLen, policy, e)
  {
  }

  /** Why a file is refused: the first of these that applies. */
  ghost predicate RefusedFor(image: Image, policy: Policy, e: LoadPlanError) {
    var loads := Loads(image.headers);
    if !IsPowerOfTwo(policy.pageSize) then e == AlignmentViolation
    else if policy.hi <= policy.lo then e == OutOfWindowVaddr
    else if policy.allowedTypes != [] && image.eType !in policy.allowedTypes then e == UnsupportedType
    else if image.phoff + |image.headers| * PHDR_SIZE > U64_MAX then e == ArithmeticOverflow
    else if image.phoff + |image.headers| * PHDR_SIZE > image.fileLen || image.phoff % 8 != 0 then
      e == TruncatedProgramHeaders
    else if !(|loads| <= MAX_LOAD_SEGMENTS && |loads| <= policy.maxSegments
              && AllValid(loads, image.fileLen, policy)) then
      Faulty(loads, image.fileLen, policy, e)
    else if loads == [] then e == NoLoadSegments
    else if !Disjoint(loads) then e == SegmentOverlap
    else e == EntryOutsideExecutable
  }

  /** Validates the load headers into the fixed buffer; `r` is their number. */
  method CollectLoads(image: Image, policy: Policy, segments: array<LoadSegment>)
    returns (r: Result<nat, LoadPlanError>, hasInterp: bool, hasDynamic: bool)
    requires segments.Length == MAX_LOAD_SEGMENTS
    modifies segments
    ensures r.Success? <==> |Loads(image.headers)| <= MAX_LOAD_SEGMENTS && |Loads(image.headers)| <= policy.maxSegments
                            && AllValid(Loads(image.headers), image.fileLen, policy)
    ensures r.Failure? ==> Faulty(Loads(image.headers), image.fileLen, policy, r.error)
    ensures r.Success? ==>
              && r.value <= segments.Length && segments[..r.value] == Loads(image.headers)
              && (hasInterp <==> Interp in image.headers) && (hasDynamic <==> Dynamic in image.headers)
  {
    hide ValidateSegment, Faulty;
    var count := 0;
    hasInterp, hasDynamic := false, false;
    for i := 0 to |image.headers|
      invariant count <= MAX_LOAD_SEGMENTS && count <= policy.maxSegments
      invariant segments[..count] == Loads(image.headers[..i])
      invariant AllValid(segments[..count], image.fileLen, policy)
      invariant hasInterp <==> Interp in image.headers[..i]
      invariant hasDynamic <==> Dynamic in image.headers[..i]
    {
      ghost var before := segments[..count];
      assert image.headers[..i + 1][..i] == image.headers[..i];
      match image.headers[i] {
        case Interp => hasInterp := true;
        case Dynamic => hasDynamic := true;
        case Other =>
        case Load(segment) =>
          NextLoad(image.headers, i, segment);
          var valid := ValidateSegment(segment, image.fileLen, policy);
          if valid.Failure? {
            IsFaulty(Loads(image.headers), image.fileLen, policy, count, valid.error);
            return Failure(valid.error), hasInterp, hasDynamic;
          }
          if count >= policy.maxSegments || count >= MAX_LOAD_SEGMENTS {
            IsFaulty(Loads(image.headers), image.fileLen, policy, count, SegmentBudgetExceeded);
            return Failure(SegmentBudgetExceeded), hasInterp, hasDynamic;
          }
          segments[count] := segment;
          assert segments[..count + 1] == before + [segment];
          count := count + 1;
      }
    }
    assert image.headers[..|image.headers|] == image.headers;
    r := Success(count);
  }

  lemma ValidEndsFit(segments: seq<LoadSegment>, fileLen: u64, policy: Policy)
    requires AllValid(segments, fileLen, policy)
    ensures EndsFit(segments)
  {
  }

  /** Accepts exactly the acceptable files, and the plan lists their load segments in order. */
  method ParseLoadPlan(image: Image, policy: Policy) returns (r: Result<LoadPlan, LoadPlanError>)
    ensures r.Success? <==> Acceptable(image, policy)
    ensures r.Failure? ==> RefusedFor(image, policy, r.error)
    ensures r.Success? ==>
              && r.value.segments == Loads(image.headers) && r.value.entry == image.entry
              && r.value.phoff == image.phoff
              && r.value.phdrVaddr == PhdrAddress(image.phoff, r.value.segments)
              && (r.value.hasInterp <==> Interp in image.headers) && (r.value.hasDynamic <==> Dynamic in image.headers)
  {
    hide AllValid, Disjoint, EntryExecutable, Loads, Faulty;
    if policy.pageSize == 0 || !IsPowerOfTwo(policy.pageSize) { return Failure(AlignmentViolation); }
    if policy.hi <= policy.lo { return Failure(OutOfWindowVaddr); }
    if policy.allowedTypes != [] && image.eType !in policy.allowedTypes { return Failure(UnsupportedType); }
    if image.phoff + |image.headers| * PHDR_SIZE > U64_MAX { return Failure(ArithmeticOverflow); }
    if image.phoff + |image.headers| * PHDR_SIZE > image.fileLen { return Failure(TruncatedProgramHeaders); }
    if image.phoff % 8 != 0 { return Failure(TruncatedProgramHeaders); }
    var segments := new LoadSegment[MAX_LOAD_SEGMENTS](_ => NO_SEGMENT);
    var count, hasInterp, hasDynamic := CollectLoads(image, policy, segments);
    if count.Failure? { return Failure(count.error); }
    if count.value == 0 { return Failure(NoLoadSegments); }
    var loads := segments[..count.value];
    ValidEndsFit(loads, image.fileLen, policy);
    var disjoint := DetectOverlaps(loads);
    if disjoint.Failure? { return Failure(disjoint.error); }
    var entry := EntryIsExecutable(image.entry, loads);
    if entry.Failure? { return Failure(entry.error); }
    r := Success(LoadPlan(image.entry, image.phoff, PhdrAddress(image.phoff, loads), loads, hasInterp, hasDynamic));
  }
}
