/** Page demand of a load plan: a sort and a sweep that count a set of pages. */
module PageDemand {
  import opened Wrappers
  import opened Arith
  import opened Bits
  import opened LoadPlans

  // ---- the pages a plan touches ----

  /** Some byte of the segment lies on page `p`. */
  ghost predicate Touches(s: LoadSegment, pageSize: u64, p: int)
    requires pageSize > 0
  {
    exists a: int :: s.Holds(a) && a / pageSize == p
  }

  ghost predicate AnyTouches(segments: seq<LoadSegment>, pageSize: u64, p: int)
    requires pageSize > 0
  {
    exists i :: 0 <= i < |segments| && Touches(segments[i], pageSize, p)
  }

  ghost function PagesTouched(segments: seq<LoadSegment>, pageSize: u64): set<int>
    requires pageSize > 0
  {
    set p | 0 <= p <= U64_MAX && AnyTouches(segments, pageSize, p)
  }

  // ---- spans ----

  /** Addresses of a first page and of the end of the last. */
  type Span = (nat, nat)

  predicate Aligned(s: Span, pageSize: u64)
    requires pageSize > 0
  {
    s.0 == (s.0 / pageSize) * pageSize && s.1 == (s.1 / pageSize) * pageSize && s.0 < s.1 <= U64_MAX
  }

  predicate AllAligned(spans: seq<Span>, pageSize: u64)
    requires pageSize > 0
  {
    forall i :: 0 <= i < |spans| ==> Aligned(spans[i], pageSize)
  }

  predicate Between(lo: int, p: int, hi: int) { lo <= p < hi }

  ghost function Interval(lo: int, hi: int): set<int> { set p | lo <= p < hi && Between(lo, p, hi) }

  ghost function PagesOf(s: Span, pageSize: u64): set<int>
    requires pageSize > 0
  {
    Interval(s.0 / pageSize, s.1 / pageSize)
  }

  ghost function Cover(spans: seq<Span>, pageSize: u64): set<int>
    requires pageSize > 0
  {
    if spans == [] then {} else Cover(spans[..|spans| - 1], pageSize) + PagesOf(spans[|spans| - 1], pageSize)
  }

  /** The non-empty spans of a plan in segment order, or the first failure. */
  function SpansOf(segments: seq<LoadSegment>, pageSize: u64): Result<seq<Span>, LoadPlanError>
    requires IsPowerOfTwo(pageSize)
  {
    if segments == [] then Success([])
    else
      match SpansOf(segments[..|segments| - 1], pageSize)
      case Failure(e) => Failure(e)
      case Success(before) =>
        match segments[|segments| - 1].PageSpan(pageSize)
        case Failure(e) => Failure(e)
        case Success((first, count)) =>
          if count == 0 then Success(before)
          else
            ProductOfNonnegatives(count, pageSize);
            Success(before + [(first, first + count * pageSize)])
  }

  lemma {:induction false} IntervalSize(lo: int, hi: int)
    requires lo <= hi
    ensures |Interval(lo, hi)| == hi - lo
    decreases hi - lo
  {
    if lo < hi {
      IntervalSize(lo, hi - 1);
      assert Interval(lo, hi) == Interval(lo, hi - 1) + {hi - 1};
    }
  }

  lemma {:induction false} CoverMember(spans: seq<Span>, pageSize: u64, p: int)
    requires pageSize > 0
    ensures p in Cover(spans, pageSize) <==> exists i :: 0 <= i < |spans| && p in PagesOf(spans[i], pageSize)
  {
    if spans != [] {
      var n := |spans| - 1;
      CoverMember(spans[..n], pageSize, p);
      if p in Cover(spans[..n], pageSize) {
        var i :| 0 <= i < n && p in PagesOf(spans[..n][i], pageSize);
        assert p in PagesOf(spans[i], pageSize);
      }
      if i :| 0 <= i < |spans| && p in PagesOf(spans[i], pageSize) {
        if i < n { assert p in PagesOf(spans[..n][i], pageSize); }
      }
    }
  }

  lemma CoverSubset(s: seq<Span>, t: seq<Span>, pageSize: u64)
    requires pageSize > 0 && forall x :: x in s ==> x in t
    ensures Cover(s, pageSize) <= Cover(t, pageSize)
  {
    hide PagesOf;
    forall p | p in Cover(s, pageSize) ensures p in Cover(t, pageSize) {
      CoverMember(s, pageSize, p);
      CoverMember(t, pageSize, p);
      var i :| 0 <= i < |s| && p in PagesOf(s[i], pageSize);
      assert s[i] in t;
    }
  }

  // ---- spans are exactly the touched pages ----

  lemma TouchesIff(s: LoadSegment, pageSize: u64, p: int)
    requires pageSize > 0 && s.memsz > 0
    ensures Touches(s, pageSize, p) <==> s.vaddr / pageSize <= p <= (s.vaddr + s.memsz - 1) / pageSize
  {
    var last := s.vaddr + s.memsz - 1;
    if Touches(s, pageSize, p) {
      var a: int :| s.Holds(a) && a / pageSize == p;
      DivMonotone(s.vaddr, a, pageSize);
      DivMonotone(a, last, pageSize);
    }
    if s.vaddr / pageSize == p {
      assert s.Holds(s.vaddr);
    } else if s.vaddr / pageSize < p <= last / pageSize {
      var a := p * pageSize;
      DivModUnique(a, pageSize, p, 0);
      DivMod(s.vaddr, pageSize);
      DivMod(last, pageSize);
      ScaleLess(p - 1, s.vaddr / pageSize, pageSize);
      Distribute(p, 1, pageSize);
      ScaleLess(last / pageSize, p, pageSize);
      assert s.Holds(a);
    }
  }

  /** The page span in terms of the first and last page touched. */
  lemma PageSpanValue(s: LoadSegment, pageSize: u64, lo: int, hi: int)
    requires IsPowerOfTwo(pageSize) && s.memsz > 0
    requires lo == s.vaddr / pageSize && hi == (s.vaddr + s.memsz - 1) / pageSize + 1
    ensures 0 <= lo < hi && lo * pageSize < hi * pageSize
    ensures s.PageSpan(pageSize).Success? <==> hi * pageSize <= U64_MAX
    ensures s.PageSpan(pageSize).Success? ==> s.PageSpan(pageSize).value == (lo * pageSize, hi - lo)
  {
    assert pageSize > 0;
    hide IsPowerOfTwo, AlignDown, AlignUp, PageCount, LoadSegment.PageSpan;
    var end := s.vaddr + s.memsz;
    DivMonotone(s.vaddr, end - 1, pageSize);
    DivNonnegative(s.vaddr, pageSize);
    PageCountIs(lo, hi, pageSize);
    AlignDownExact(s.vaddr, pageSize);
    EndAligns(end, pageSize, hi);
    SpanBetween(s, pageSize, lo * pageSize, hi * pageSize, hi - lo);
  }

  /** The span between the rounded ends. */
  lemma SpanBetween(s: LoadSegment, pageSize: u64, first: nat, last: nat, pages: nat)
    requires IsPowerOfTwo(pageSize) && pageSize > 0 && s.memsz > 0 && first < last && s.vaddr + s.memsz <= last
    requires AlignDown(s.vaddr, pageSize) == first && PageCount(last - first, pageSize) == pages
    requires s.vaddr + s.memsz <= U64_MAX ==>
               AlignUp(s.vaddr + s.memsz, pageSize) == if last <= U64_MAX then Some(last) else None
    ensures s.PageSpan(pageSize).Success? <==> last <= U64_MAX
    ensures s.PageSpan(pageSize).Success? ==> s.PageSpan(pageSize).value == (first, pages)
  {
    hide IsPowerOfTwo, AlignDown, AlignUp, PageCount;
  }

  lemma PageCountIs(lo: nat, hi: nat, pageSize: u64)
    requires lo < hi && pageSize > 0
    ensures 0 <= lo * pageSize < hi * pageSize && PageCount(hi * pageSize - lo * pageSize, pageSize) == hi - lo
  {
    ProductOfNonnegatives(lo, pageSize);
    WholePages(lo, hi, pageSize);
  }

  lemma EndAligns(end: nat, pageSize: u64, hi: int)
    requires IsPowerOfTwo(pageSize) && end > 0 && hi == (end - 1) / pageSize + 1
    ensures hi * pageSize >= end
    ensures end <= U64_MAX ==> AlignUp(end, pageSize) == if hi * pageSize <= U64_MAX then Some(hi * pageSize) else None
  {
    assert pageSize > 0;
    hide IsPowerOfTwo, AlignUp;
    EndRounds(end, pageSize);
    if end <= U64_MAX { AlignUpExact(end, pageSize); }
  }

  /** A page span succeeds exactly when the rounded end is representable; it is then aligned and
      holds exactly the touched pages. */
  lemma PageSpanExact(s: LoadSegment, pageSize: u64)
    requires IsPowerOfTwo(pageSize) && s.memsz > 0
    ensures s.PageSpan(pageSize).Success? <==> ((s.vaddr + s.memsz - 1) / pageSize + 1) * pageSize <= U64_MAX
    ensures s.PageSpan(pageSize).Success? ==>
              var (first, count) := s.PageSpan(pageSize).value;
              && count > 0 && Aligned((first, first + count * pageSize), pageSize)
              && PagesOf((first, first + count * pageSize), pageSize)
                 == Interval(s.vaddr / pageSize, (s.vaddr + s.memsz - 1) / pageSize + 1)
  {
    var lo, hi := s.vaddr / pageSize, (s.vaddr + s.memsz - 1) / pageSize + 1;
    PageSpanValue(s, pageSize, lo, hi);
    assert pageSize > 0;
    hide LoadSegment.PageSpan, IsPowerOfTwo;
    WholePages(lo, hi, pageSize);
  }

  lemma WholePages(lo: int, hi: int, n: int)
    requires lo < hi && n > 0
    ensures lo * n < hi * n && (hi * n - lo * n) / n == hi - lo && lo * n + (hi - lo) * n == hi * n
    ensures lo * n / n == lo && hi * n / n == hi
  {
    ScaleLess(lo, hi, n);
    Distribute(hi, lo, n);
    DivModUnique(hi * n - lo * n, n, hi - lo, 0);
    DivModUnique(lo * n, n, lo, 0);
    DivModUnique(hi * n, n, hi, 0);
  }

  lemma EndRounds(end: nat, n: nat)
    requires end > 0 && n > 0
    ensures (end + n - 1) / n == (end - 1) / n + 1
    ensures ((end - 1) / n + 1) * n >= end
  {
    var q := (end - 1) / n;
    DivMod(end - 1, n);
    Distribute(q, 1, n);
    DivModUnique(end + n - 1, n, q + 1, (end - 1) % n);
  }

  /** Every accepted plan has its spans, whatever the power-of-two page size. */
  lemma {:induction false} SpansSucceed(segments: seq<LoadSegment>, pageSize: u64)
    requires IsPowerOfTwo(pageSize)
    requires forall i :: 0 <= i < |segments| && segments[i].memsz > 0 ==>
               ((segments[i].vaddr + segments[i].memsz - 1) / pageSize + 1) * pageSize <= U64_MAX
    ensures SpansOf(segments, pageSize).Success?
  {
    assert pageSize > 0;
    hide IsPowerOfTwo, AlignDown, AlignUp;
    if segments != [] {
      SpansSucceed(segments[..|segments| - 1], pageSize);
      var s := segments[|segments| - 1];
      if s.memsz > 0 { PageSpanExact(s, pageSize); }
    }
  }

  /** One segment contributes a span of exactly the pages it touches, and none when it is empty. */
  lemma SpanTouches(s: LoadSegment, pageSize: u64)
    requires IsPowerOfTwo(pageSize) && s.PageSpan(pageSize).Success?
    ensures var (first, count) := s.PageSpan(pageSize).value;
            && (count == 0 ==> forall p :: !Touches(s, pageSize, p))
            && (count > 0 ==>
                  && Aligned((first, first + count * pageSize), pageSize)
                  && forall p :: p in PagesOf((first, first + count * pageSize), pageSize) <==> Touches(s, pageSize, p))
  {
    if s.memsz > 0 {
      PageSpanExact(s, pageSize);
      assert pageSize > 0;
      hide Touches, IsPowerOfTwo, LoadSegment.PageSpan, Aligned, PagesOf;
      forall p
        ensures p in Interval(s.vaddr / pageSize, (s.vaddr + s.memsz - 1) / pageSize + 1) <==> Touches(s, pageSize, p)
      {
        TouchesIff(s, pageSize, p);
      }
    }
  }

  /** The spans of a plan are aligned and cover exactly the pages its segments touch. */
  lemma {:induction false} SpansCover(segments: seq<LoadSegment>, pageSize: u64)
    requires IsPowerOfTwo(pageSize) && SpansOf(segments, pageSize).Success?
    ensures var spans := SpansOf(segments, pageSize).value;
            && |spans| <= |segments| && AllAligned(spans, pageSize)
            && (forall p :: p in Cover(spans, pageSize) <==> AnyTouches(segments, pageSize, p))
  {
    assert pageSize > 0;
    hide IsPowerOfTwo, Touches, AnyTouches, LoadSegment.PageSpan, Aligned, PagesOf;
    if segments == [] {
      NoneTouched(pageSize);
    } else {
      var n := |segments| - 1;
      SpansCover(segments[..n], pageSize);
      SpanTouches(segments[n], pageSize);
      forall p
        ensures AnyTouches(segments, pageSize, p)
                <==> AnyTouches(segments[..n], pageSize, p) || Touches(segments[n], pageSize, p)
      {
        TouchesAppend(segments, pageSize, p);
      }
    }
  }

  lemma NoneTouched(pageSize: u64)
    requires pageSize > 0
    ensures forall p :: !AnyTouches([], pageSize, p)
  {
  }

  lemma TouchesAppend(segments: seq<LoadSegment>, pageSize: u64, p: int)
    requires pageSize > 0 && segments != []
    ensures AnyTouches(segments, pageSize, p) <==>
              AnyTouches(segments[..|segments| - 1], pageSize, p) || Touches(segments[|segments| - 1], pageSize, p)
  {
  }

  lemma PagesAreCover(segments: seq<LoadSegment>, pageSize: u64)
    requires IsPowerOfTwo(pageSize) && SpansOf(segments, pageSize).Success?
    ensures PagesTouched(segments, pageSize) == Cover(SpansOf(segments, pageSize).value, pageSize)
  {
    var spans := SpansOf(segments, pageSize).value;
    SpansCover(segments, pageSize);
    forall p | p in Cover(spans, pageSize) ensures 0 <= p <= U64_MAX {
      CoverMember(spans, pageSize, p);
      var i :| 0 <= i < |spans| && p in PagesOf(spans[i], pageSize);
      PageFits(spans[i], pageSize);
    }
  }

  lemma PageFits(s: Span, pageSize: u64)
    requires pageSize > 0 && s.1 <= U64_MAX
    ensures 0 <= s.0 / pageSize && s.1 / pageSize <= U64_MAX
  {
  }

  // ---- sorting ----

  predicate SortedByStart(spans: seq<Span>) {
    forall i, j :: 0 <= i < j < |spans| ==> spans[i].0 <= spans[j].0
  }

  predicate Permuted(s: seq<Span>, t: seq<Span>) { |s| == |t| && multiset(s) == multiset(t) }

  /** The first `i + 1` spans are in order but for the one at `j`, which belongs at or below its place. */
  predicate SortedExcept(s: seq<Span>, i: nat, j: nat)
    requires j <= i < |s|
  {
    && (forall a, b :: 0 <= a < b <= i && a != j && b != j ==> s[a].0 <= s[b].0)
    && (forall b :: j < b <= i ==> s[j].0 <= s[b].0)
  }

  lemma SinkStarts(s: seq<Span>, i: nat)
    requires i < |s| && SortedByStart(s[..i])
    ensures SortedExcept(s, i, i)
  {
  }

  /** The span that sinks has reached `j`; the others are in order. */
  predicate Sinking(origin: seq<Span>, s: seq<Span>, i: nat, j: nat) {
    j <= i < |s| && SortedExcept(s, i, j) && Permuted(s, origin)
  }

  lemma SinkStep(origin: seq<Span>, s: seq<Span>, i: nat, j: nat)
    requires 0 < j <= i < |s| && Sinking(origin, s, i, j) && s[j - 1].0 > s[j].0
    ensures Sinking(origin, s[j - 1 := s[j]][j := s[j - 1]], i, j - 1)
  {
  }

  lemma SinkStops(origin: seq<Span>, s: seq<Span>, i: nat, j: nat)
    requires j <= i < |s| && Sinking(origin, s, i, j) && (j > 0 ==> s[j - 1].0 <= s[j].0)
    ensures SortedByStart(s[..i + 1]) && Permuted(s, origin)
  {
  }

  /** Swapping two spans of the front swaps them in the front. */
  lemma SwapInFront(s: seq<Span>, n: nat, j: nat)
    requires 0 < j < n <= |s|
    ensures s[j - 1 := s[j]][j := s[j - 1]][..n] == s[..n][j - 1 := s[..n][j]][j := s[..n][j - 1]]
  {
  }

  /** Moves the span at `i` down to its place in the sorted prefix. */
  method SinkSpan(spans: array<Span>, n: nat, i: nat)
    requires i < n <= spans.Length && SortedByStart(spans[..i])
    modifies spans
    ensures SortedByStart(spans[..i + 1]) && Permuted(spans[..n], old(spans[..n]))
  {
    ghost var origin := spans[..n];
    var j := i;
    assert origin[..i] == spans[..i];
    SinkStarts(origin, i);
    assert Sinking(origin, origin, i, i);
    hide Sinking, SortedByStart, Permuted;
    while j > 0 && spans[j - 1].0 > spans[j].0
      invariant 0 <= j <= i && Sinking(origin, spans[..n], i, j)
    {
      ghost var before := spans[..];
      SinkStep(origin, before[..n], i, j);
      SwapInFront(before, n, j);
      spans[j - 1], spans[j] := spans[j], spans[j - 1];
      assert spans[..] == before[j - 1 := before[j]][j := before[j - 1]];
      j := j - 1;
    }
    assert Sinking(origin, spans[..n], i, j);
    SinkStops(origin, spans[..n], i, j);
    assert spans[..n][..i + 1] == spans[..i + 1];
  }

  /** Insertion sort of the first `n` spans by their start. */
  method SortSpans(spans: array<Span>, n: nat)
    requires n <= spans.Length
    modifies spans
    ensures SortedByStart(spans[..n]) && Permuted(spans[..n], old(spans[..n]))
  {
    if n == 0 { return; }
    for i := 1 to n
      invariant SortedByStart(spans[..i]) && Permuted(spans[..n], old(spans[..n]))
    {
      SinkSpan(spans, n, i);
    }
  }

  lemma PermutationKeepsCover(s: seq<Span>, t: seq<Span>, pageSize: u64)
    requires pageSize > 0 && Permuted(s, t)
    ensures Cover(s, pageSize) == Cover(t, pageSize)
    ensures AllAligned(s, pageSize) ==> AllAligned(t, pageSize)
  {
    hide Aligned;
    forall x ensures x in s <==> x in t { assert x in multiset(s) <==> x in multiset(t); }
    CoverSubset(s, t, pageSize);
    CoverSubset(t, s, pageSize);
    if AllAligned(s, pageSize) {
      forall i | 0 <= i < |t| ensures Aligned(t[i], pageSize) { assert t[i] in s; }
    }
  }

  // ---- sweeping ----

  lemma CoverAppend(spans: seq<Span>, k: nat, pageSize: u64)
    requires pageSize > 0 && k < |spans|
    ensures Cover(spans[..k + 1], pageSize) == Cover(spans[..k], pageSize) + PagesOf(spans[k], pageSize)
  {
    assert spans[..k + 1][..k] == spans[..k];
  }

  /** One merge: two spans that meet form the interval from the first start to the later end. */
  lemma MergeSpan(start: nat, end: nat, s: Span, pageSize: u64)
    requires pageSize > 0 && Aligned((start, end), pageSize) && Aligned(s, pageSize) && start <= s.0 < end
    ensures var end' := if end < s.1 then s.1 else end;
            && Aligned((start, end'), pageSize)
            && PagesOf((start, end), pageSize) + PagesOf(s, pageSize) == PagesOf((start, end'), pageSize)
  {
    DivMonotone(start, s.0, pageSize);
    DivMonotone(s.0, end, pageSize);
    if end < s.1 { DivMonotone(end, s.1, pageSize); } else { DivMonotone(s.1, end, pageSize); }
  }

  lemma SpanSize(start: nat, end: nat, pageSize: u64)
    requires pageSize > 0 && Aligned((start, end), pageSize)
    ensures (end - start) / pageSize == end / pageSize - start / pageSize
    ensures |PagesOf((start, end), pageSize)| == (end - start) / pageSize
  {
    var lo, hi := start / pageSize, end / pageSize;
    ScaleLess(lo, hi, pageSize);
    Distribute(hi, lo, pageSize);
    DivModUnique(end - start, pageSize, hi - lo, 0);
    IntervalSize(lo, hi);
  }

  /** All pages of `a` lie below page `lo`. */
  predicate Below(a: set<int>, lo: int) { forall p :: p in a ==> 0 <= p < lo }

  lemma CountDisjoint(a: set<int>, start: nat, end: nat, pageSize: u64)
    requires pageSize > 0 && Aligned((start, end), pageSize) && Below(a, start / pageSize)
    ensures |a + PagesOf((start, end), pageSize)| == |a| + (end - start) / pageSize
    ensures Below(a + PagesOf((start, end), pageSize), end / pageSize)
    ensures |a| + (end - start) / pageSize <= U64_MAX
  {
    SpanSize(start, end, pageSize);
    var b := PagesOf((start, end), pageSize);
    assert a !! b;
    DivMonotone(start, end, pageSize);
    PageFits((start, end), pageSize);
    DivNonnegative(start, pageSize);
    assert a <= Interval(0, start / pageSize);
    IntervalSize(0, start / pageSize);
    SubsetSize(a, Interval(0, start / pageSize));
  }

  lemma {:induction false} SubsetSize<T>(a: set<T>, b: set<T>)
    requires a <= b
    ensures |a| <= |b|
  {
    if a != {} {
      var x :| x in a;
      SubsetSize(a - {x}, b - {x});
    }
  }

  /** The sweep over sorted spans counts each page of their union once. */
  method CountPages(spans: seq<Span>, pageSize: u64) returns (total: nat)
    requires pageSize > 0 && SortedByStart(spans) && AllAligned(spans, pageSize)
    ensures total == |Cover(spans, pageSize)| <= U64_MAX
  {
    hide Cover, PagesOf, Aligned, Below;
    total := 0;
    var index := 0;
    assert Cover(spans[..0], pageSize) == {} by { CoverOfNone(pageSize); }
    assert forall lo :: Below({}, lo) by { NothingBelow(); }
    while index < |spans|
      invariant index <= |spans| && total == |Cover(spans[..index], pageSize)| <= U64_MAX
      invariant index < |spans| ==> Below(Cover(spans[..index], pageSize), spans[index].0 / pageSize)
    {
      ghost var earlier := Cover(spans[..index], pageSize);
      var start: nat, end: nat := spans[index].0, spans[index].1;
      CoverAppend(spans, index, pageSize);
      index := index + 1;
      while index < |spans| && spans[index].0 < end
        invariant 0 < index <= |spans| && start <= spans[index - 1].0
        invariant Aligned((start, end), pageSize)
        invariant Cover(spans[..index], pageSize) == earlier + PagesOf((start, end), pageSize)
      {
        CoverAppend(spans, index, pageSize);
        MergeSpan(start, end, spans[index], pageSize);
        end := if end < spans[index].1 then spans[index].1 else end;
        index := index + 1;
      }
      CountDisjoint(earlier, start, end, pageSize);
      if index < |spans| {
        DivMonotone(end, spans[index].0, pageSize);
        BelowMonotone(Cover(spans[..index], pageSize), end / pageSize, spans[index].0 / pageSize);
      }
      total := total + (end - start) / pageSize;
    }
    assert spans[..|spans|] == spans;
  }

  lemma NothingBelow()
    ensures forall lo :: Below({}, lo)
  {
  }

  lemma BelowMonotone(a: set<int>, lo: int, hi: int)
    requires Below(a, lo) && lo <= hi
    ensures Below(a, hi)
  {
  }

  lemma CoverOfNone(pageSize: u64)
    requires pageSize > 0
    ensures Cover([], pageSize) == {}
  {
  }

  lemma {:induction false} SpansFailOnwards(segments: seq<LoadSegment>, k: nat, pageSize: u64)
    requires k <= |segments| && IsPowerOfTwo(pageSize) && SpansOf(segments[..k], pageSize).Failure?
    ensures SpansOf(segments, pageSize) == SpansOf(segments[..k], pageSize)
    decreases |segments|
  {
    if k < |segments| {
      assert segments[..|segments| - 1][..k] == segments[..k];
      SpansFailOnwards(segments[..|segments| - 1], k, pageSize);
    } else {
      assert segments[..k] == segments;
    }
  }

  /** The spans up to a segment, from those before it and its own. */
  lemma SpansNext(segments: seq<LoadSegment>, i: nat, pageSize: u64, before: seq<Span>)
    requires i < |segments| && IsPowerOfTwo(pageSize) && SpansOf(segments[..i], pageSize) == Success(before)
    ensures var span := segments[i].PageSpan(pageSize);
            if span.Failure? then SpansOf(segments, pageSize) == Failure(span.error)
            else if span.value.1 == 0 then SpansOf(segments[..i + 1], pageSize) == Success(before)
            else
              && span.value.0 + span.value.1 * pageSize >= 0
              && SpansOf(segments[..i + 1], pageSize)
                 == Success(before + [(span.value.0, span.value.0 + span.value.1 * pageSize)])
  {
    hide IsPowerOfTwo, LoadSegment.PageSpan;
    assert segments[..i + 1][..i] == segments[..i] && segments[..i + 1][i] == segments[i];
    var span := segments[i].PageSpan(pageSize);
    if span.Failure? {
      SpansFailOnwards(segments, i + 1, pageSize);
    } else {
      ProductOfNonnegatives(span.value.1, pageSize);
    }
  }

  /** Collects the spans of the segments, in order, at the front of the buffer. */
  method CollectSpans(segments: seq<LoadSegment>, pageSize: u64, spans: array<Span>)
    returns (r: Result<nat, LoadPlanError>)
    requires IsPowerOfTwo(pageSize) && |segments| <= spans.Length
    modifies spans
    ensures match SpansOf(segments, pageSize)
            case Failure(e) => r == Failure(e)
            case Success(s) => r == Success(|s|) && |s| <= spans.Length && spans[..|s|] == s
  {
    assert pageSize > 0;
    assert segments[..0] == [];
    hide IsPowerOfTwo, LoadSegment.PageSpan;
    var count := 0;
    assert SpansOf(segments[..0], pageSize) == Success(spans[..count]);
    hide SpansOf;
    for i := 0 to |segments|
      invariant count <= i && SpansOf(segments[..i], pageSize) == Success(spans[..count])
    {
      ghost var before := spans[..count];
      SpansNext(segments, i, pageSize, before);
      var span := segments[i].PageSpan(pageSize);
      if span.Failure? { return Failure(span.error); }
      var (first, pages) := span.value;
      if pages > 0 {
        var end: nat := first + pages * pageSize;
        spans[count] := (first, end);
        assert spans[..count + 1] == before + [(first, end)];
        count := count + 1;
      }
    }
    assert segments[..|segments|] == segments;
    r := Success(count);
  }

  /** Unique page demand: the number of pages touched, or the first segment's failure. */
  method TotalMappedPages(segments: seq<LoadSegment>, pageSize: u64) returns (r: Result<nat, LoadPlanError>)
    requires |segments| <= MAX_LOAD_SEGMENTS
    ensures !IsPowerOfTwo(pageSize) ==> r == Failure(AlignmentViolation)
    ensures IsPowerOfTwo(pageSize) ==>
              match SpansOf(segments, pageSize)
              case Failure(e) => r == Failure(e)
              case Success(_) => r == Success(|PagesTouched(segments, pageSize)|)
  {
    if pageSize == 0 || !IsPowerOfTwo(pageSize) { return Failure(AlignmentViolation); }
    var spans := new Span[MAX_LOAD_SEGMENTS](_ => (0, 0));
    var collected := CollectSpans(segments, pageSize, spans);
    if collected.Failure? { return Failure(collected.error); }
    var n := collected.value;
    SpansCover(segments, pageSize);
    PagesAreCover(segments, pageSize);
    hide SpansOf, Cover, PagesTouched, AllAligned;
    ghost var listed := spans[..n];
    SortSpans(spans, n);
    PermutationKeepsCover(listed, spans[..n], pageSize);
    var total := CountPages(spans[..n], pageSize);
    r := Success(total);
  }

  /** For every accepted plan and every power-of-two page size the demand exists: the count
      succeeds and is the number of distinct pages its segments touch. */
  method PlanPages(image: Image, policy: Policy, pageSize: u64)
    returns (plan: Result<LoadPlan, LoadPlanError>, r: Result<nat, LoadPlanError>)
    requires IsPowerOfTwo(pageSize)
    ensures plan.Success? <==> Acceptable(image, policy)
    ensures plan.Success? ==> r == Success(|PagesTouched(Loads(image.headers), pageSize)|)
  {
    plan := ParseLoadPlan(image, policy);
    if plan.Failure? { return plan, Failure(plan.error); }
    r := TotalMappedPages(plan.value.segments, pageSize);
    AcceptedSpansSucceed(image, policy, pageSize);
  }

  lemma AcceptedSpansSucceed(image: Image, policy: Policy, pageSize: u64)
    requires Acceptable(image, policy) && IsPowerOfTwo(pageSize)
    ensures SpansOf(Loads(image.headers), pageSize).Success?
  {
    var loads := Loads(image.headers);
    forall i | 0 <= i < |loads| && loads[i].memsz > 0
      ensures ((loads[i].vaddr + loads[i].memsz - 1) / pageSize + 1) * pageSize <= U64_MAX
    {
      assert AllValid(loads, image.fileLen, policy) && ValidateSegment(loads[i], image.fileLen, policy).Success?;
      CanonicalFits(loads[i].vaddr + loads[i].memsz - 1, pageSize);
    }
    SpansSucceed(loads, pageSize);
  }

  /** Below 2^47, rounding up to any 64-bit power of two stays representable. */
  lemma CanonicalFits(a: nat, pageSize: u64)
    requires a < CANONICAL_LIMIT && IsPowerOfTwo(pageSize)
    ensures (a / pageSize + 1) * pageSize <= U64_MAX
  {
    DivMod(a, pageSize);
    Distribute(a / pageSize, 1, pageSize);
    PowerBelowWord(pageSize);
  }

  lemma {:induction false} PowerBelow(n: nat, bound: nat)
    requires IsPowerOfTwo(n) && IsPowerOfTwo(bound) && n < bound
    ensures 2 * n <= bound
    decreases n
  {
    if n > 1 { PowerBelow(n / 2, bound / 2); }
  }

  lemma PowerBelowWord(n: u64)
    requires IsPowerOfTwo(n)
    ensures n <= 0x8000_0000_0000_0000
  {
    WordIsPower();
    PowerBelow(n, U64_MAX + 1);
  }
}
