/** Building the process-entry stack in a byte buffer. */
module StackBuilder {
  import opened Wrappers
  import opened Bits
  import opened Buffers
  import opened StackImages
  import opened StackReader

  method CopyString(buf: array<u8>, at: nat, s: seq<u8>)
    requires at + |s| + 1 <= buf.Length
    modifies buf
    ensures buf[..] == Overwrite(old(buf[..]), at, s + [0])
  {
    hide Overwrite;
    OverwriteMore(buf[..], at, s, [0]);
    CopyBytes(buf, at, s);
    CopyBytes(buf, at + |s|, [0]);
  }

  method CopyBlob(buf: array<u8>, at: nat, blob: Blob) returns (end: nat)
    requires at + |BlobChunk(blob)| <= buf.Length
    modifies buf
    ensures end == at + |BlobChunk(blob)| && buf[..] == Overwrite(old(buf[..]), at, BlobChunk(blob))
  {
    hide Overwrite;
    if blob.nulTerminate {
      CopyString(buf, at, blob.bytes);
      end := at + |blob.bytes| + 1;
    } else {
      CopyBytes(buf, at, blob.bytes);
      end := at + |blob.bytes|;
    }
  }

  lemma FlattenLast(chunks: seq<seq<u8>>, i: nat)
    requires i < |chunks|
    ensures Flatten(chunks[..i + 1]) == Flatten(chunks[..i]) + chunks[i]
  {
    assert chunks[..i + 1][..i] == chunks[..i];
  }

  /** Writing the next chunk extends the flattened prefix by it. */
  lemma PlaceStep(origin: seq<u8>, at: nat, chunks: seq<seq<u8>>, i: nat)
    requires i < |chunks| && at + |Flatten(chunks)| <= |origin|
    ensures Offset(chunks, i) + |chunks[i]| == Offset(chunks, i + 1) <= |Flatten(chunks)|
    ensures Overwrite(Overwrite(origin, at, Flatten(chunks[..i])), at + Offset(chunks, i), chunks[i])
            == Overwrite(origin, at, Flatten(chunks[..i + 1]))
  {
    hide Overwrite;
    FlattenLast(chunks, i);
    OffsetBound(chunks, i + 1);
    OverwriteMore(origin, at, Flatten(chunks[..i]), chunks[i]);
  }

  /** The first `i` chunks have been written at `at`. */
  predicate PlacedTo(origin: seq<u8>, mem: seq<u8>, at: nat, chunks: seq<seq<u8>>, i: nat) {
    && i <= |chunks| && at + |Flatten(chunks)| <= |origin| && Offset(chunks, i) <= |Flatten(chunks)|
    && mem == Overwrite(origin, at, Flatten(chunks[..i]))
  }

  lemma PlacedEnds(origin: seq<u8>, at: nat, chunks: seq<seq<u8>>)
    requires at + |Flatten(chunks)| <= |origin|
    ensures PlacedTo(origin, origin, at, chunks, 0) && Offset(chunks, 0) == 0
    ensures Offset(chunks, |chunks|) == |Flatten(chunks)|
    ensures forall mem :: PlacedTo(origin, mem, at, chunks, |chunks|) ==> mem == Overwrite(origin, at, Flatten(chunks))
  {
    assert chunks[..0] == [] && chunks[..|chunks|] == chunks;
    FlattenNone();
    hide Flatten;
    assert Overwrite(origin, at, []) == origin;
  }

  lemma PlacedNext(origin: seq<u8>, mem: seq<u8>, at: nat, chunks: seq<seq<u8>>, i: nat, piece: seq<u8>)
    requires i < |chunks| && PlacedTo(origin, mem, at, chunks, i) && piece == chunks[i]
    ensures |mem| == |origin| && Offset(chunks, i + 1) == Offset(chunks, i) + |piece|
    ensures at + Offset(chunks, i + 1) <= |mem| && Offset(chunks, i + 1) <= |Flatten(chunks)|
    ensures PlacedTo(origin, Overwrite(mem, at + Offset(chunks, i), piece), at, chunks, i + 1)
  {
    PlaceStep(origin, at, chunks, i);
    hide Flatten;
  }

  /** Copies strings with their NULs one after another and records their addresses. */
  method PlaceStrings(buf: array<u8>, at: nat, vaddr: nat, strings: seq<seq<u8>>, addrs: array<u64>) returns (end: nat)
    requires at + |Flatten(Terminated(strings))| <= buf.Length && vaddr + |Flatten(Terminated(strings))| <= U64_MAX + 1
    requires |strings| <= addrs.Length && buf as object != addrs
    modifies buf, addrs
    ensures end == at + |Flatten(Terminated(strings))|
    ensures buf[..] == Overwrite(old(buf[..]), at, Flatten(Terminated(strings)))
    ensures forall i :: 0 <= i < |strings| ==> addrs[i] == vaddr + Offset(Terminated(strings), i)
  {
    hide Flatten, Overwrite, PlacedTo, Offset;
    ghost var chunks := Terminated(strings);
    ghost var origin := buf[..];
    end := at;
    PlacedEnds(origin, at, chunks);
    for i := 0 to |strings|
      invariant end == at + Offset(chunks, i) && PlacedTo(origin, buf[..], at, chunks, i)
      invariant forall j :: 0 <= j < i ==> addrs[j] == vaddr + Offset(chunks, j)
    {
      PlacedNext(origin, buf[..], at, chunks, i, strings[i] + [0]);
      hide Terminated;
      CopyString(buf, end, strings[i]);
      addrs[i] := vaddr + (end - at);
      end := end + |strings[i]| + 1;
    }
  }

  lemma FlattenNone()
    ensures Flatten([]) == []
  {
  }

  /** Copies the extra blobs, each with its NUL when it asks for one. */
  method PlaceBlobs(buf: array<u8>, at: nat, vaddr: nat, tail: seq<Blob>, addrs: array<u64>) returns (end: nat)
    requires at + |Flatten(BlobChunks(tail))| <= buf.Length && vaddr + |Flatten(BlobChunks(tail))| <= U64_MAX
    requires |tail| <= addrs.Length && buf as object != addrs
    modifies buf, addrs
    ensures end == at + |Flatten(BlobChunks(tail))|
    ensures buf[..] == Overwrite(old(buf[..]), at, Flatten(BlobChunks(tail)))
    ensures forall i :: 0 <= i < |tail| ==> addrs[i] == vaddr + Offset(BlobChunks(tail), i)
  {
    hide Flatten, Overwrite, PlacedTo, Offset, BlobChunk;
    ghost var chunks := BlobChunks(tail);
    ghost var origin := buf[..];
    end := at;
    PlacedEnds(origin, at, chunks);
    for i := 0 to |tail|
      invariant end == at + Offset(chunks, i) && PlacedTo(origin, buf[..], at, chunks, i)
      invariant forall j :: 0 <= j < i ==> addrs[j] == vaddr + Offset(chunks, j)
    {
      PlacedNext(origin, buf[..], at, chunks, i, BlobChunk(tail[i]));
      hide BlobChunks;
      var next := CopyBlob(buf, end, tail[i]);
      addrs[i] := vaddr + (end - at);
      end := next;
    }
  }

  // ---- the vector ----

  lemma WriteMore(mem: seq<u8>, at: nat, done: seq<u64>, more: seq<u64>)
    requires at + 8 * (|done| + |more|) <= |mem|
    ensures Overwrite(Overwrite(mem, at, EncodeWords(done)), at + 8 * |done|, EncodeWords(more))
            == Overwrite(mem, at, EncodeWords(done + more))
  {
    hide Overwrite, EncodeWords;
    OverwriteMore(mem, at, EncodeWords(done), EncodeWords(more));
    WordsAppend(done, more);
  }

  method WriteWord(buf: array<u8>, cursor: nat, value: u64) returns (end: nat)
    requires cursor + 8 <= buf.Length
    modifies buf
    ensures end == cursor + 8 && buf[..] == Overwrite(old(buf[..]), cursor, EncodeWords([value]))
  {
    OneWord(value);
    CopyBytes(buf, cursor, EncodeWord(value));
    end := cursor + 8;
  }

  lemma OneWord(value: u64)
    ensures EncodeWords([value]) == EncodeWord(value)
  {
  }

  method WritePointers(buf: array<u8>, cursor: nat, addrs: array<u64>, count: nat) returns (end: nat)
    requires count <= addrs.Length && cursor + 8 * count <= buf.Length && buf as object != addrs
    modifies buf
    ensures end == cursor + 8 * count && buf[..] == Overwrite(old(buf[..]), cursor, EncodeWords(addrs[..count]))
  {
    hide EncodeWords, Overwrite;
    end := cursor;
    ghost var origin := buf[..];
    NoWords(origin, cursor);
    for i := 0 to count
      invariant end == cursor + 8 * i && buf[..] == Overwrite(origin, cursor, EncodeWords(addrs[..i]))
    {
      WriteMore(origin, cursor, addrs[..i], [addrs[i]]);
      assert addrs[..i + 1] == addrs[..i] + [addrs[i]];
      end := WriteWord(buf, end, addrs[i]);
    }
  }

  lemma NoWords(mem: seq<u8>, at: nat)
    requires at <= |mem|
    ensures Overwrite(mem, at, EncodeWords([])) == mem
  {
  }

  method WritePair(buf: array<u8>, cursor: nat, pair: Aux) returns (end: nat)
    requires cursor + 16 <= buf.Length
    modifies buf
    ensures end == cursor + 16 && buf[..] == Overwrite(old(buf[..]), cursor, EncodeWords([pair.0, pair.1]))
  {
    hide Overwrite, EncodeWords;
    WriteMore(buf[..], cursor, [pair.0], [pair.1]);
    assert [pair.0] + [pair.1] == [pair.0, pair.1];
    end := WriteWord(buf, cursor, pair.0);
    end := WriteWord(buf, end, pair.1);
  }

  /** The words of the first `i` pairs have been written at `cursor`. */
  predicate AuxWritten(origin: seq<u8>, mem: seq<u8>, cursor: nat, auxv: seq<Aux>, i: nat) {
    i <= |auxv| && cursor + 16 * |auxv| <= |origin|
    && mem == Overwrite(origin, cursor, EncodeWords(AuxWords(auxv[..i])))
  }

  lemma AuxStep(origin: seq<u8>, mem: seq<u8>, cursor: nat, auxv: seq<Aux>, i: nat)
    requires i < |auxv| && AuxWritten(origin, mem, cursor, auxv, i)
    ensures |mem| == |origin|
    ensures AuxWritten(origin, Overwrite(mem, cursor + 16 * i, EncodeWords([auxv[i].0, auxv[i].1])), cursor, auxv,
                       i + 1)
  {
    hide Overwrite, EncodeWords, AuxWords;
    AuxAppend(auxv, i);
    WriteMore(origin, cursor, AuxWords(auxv[..i]), [auxv[i].0, auxv[i].1]);
  }

  lemma AuxEnds(origin: seq<u8>, cursor: nat, auxv: seq<Aux>)
    requires cursor + 16 * |auxv| <= |origin|
    ensures AuxWritten(origin, origin, cursor, auxv, 0)
    ensures forall mem ::
              AuxWritten(origin, mem, cursor, auxv, |auxv|) ==>
                mem == Overwrite(origin, cursor, EncodeWords(AuxWords(auxv)))
  {
    assert AuxWords(auxv[..0]) == [] && auxv[..|auxv|] == auxv;
    NoWords(origin, cursor);
  }

  method WriteAux(buf: array<u8>, cursor: nat, auxv: seq<Aux>) returns (end: nat)
    requires cursor + 16 * |auxv| <= buf.Length
    modifies buf
    ensures end == cursor + 16 * |auxv| && buf[..] == Overwrite(old(buf[..]), cursor, EncodeWords(AuxWords(auxv)))
  {
    hide EncodeWords, Overwrite, AuxWords, AuxWritten;
    end := cursor;
    ghost var origin := buf[..];
    AuxEnds(origin, cursor, auxv);
    for i := 0 to |auxv|
      invariant end == cursor + 16 * i && AuxWritten(origin, buf[..], cursor, auxv, i)
    {
      AuxStep(origin, buf[..], cursor, auxv, i);
      end := WritePair(buf, end, auxv[i]);
    }
  }

  /** Writes the whole vector region from the stack pointer up. */
  method WriteVector(buf: array<u8>, at: nat, argv: array<u64>, argc: nat, envp: array<u64>, envc: nat, auxv: seq<Aux>)
    requires argc <= argv.Length && envc <= envp.Length && argc <= MAX_STRINGS
    requires at + VectorBytes(argc, envc, |auxv|) <= buf.Length && buf as object != argv && buf as object != envp
    modifies buf
    ensures buf[..] == Overwrite(old(buf[..]), at, EncodeWords(Vector(argv[..argc], envp[..envc], auxv)))
  {
    hide EncodeWords, AuxWords, Overwrite;
    ghost var origin := buf[..];
    ghost var words := [argc];
    var cursor := WriteWord(buf, at, argc);
    WriteMore(origin, at, words, argv[..argc]);
    cursor := WritePointers(buf, cursor, argv, argc);
    words := words + argv[..argc];
    WriteMore(origin, at, words, [0]);
    cursor := WriteWord(buf, cursor, 0);
    words := words + [0];
    WriteMore(origin, at, words, envp[..envc]);
    cursor := WritePointers(buf, cursor, envp, envc);
    words := words + envp[..envc];
    WriteMore(origin, at, words, [0]);
    cursor := WriteWord(buf, cursor, 0);
    words := words + [0];
    WriteMore(origin, at, words, AuxWords(auxv));
    cursor := WriteAux(buf, cursor, auxv);
    words := words + AuxWords(auxv);
    WriteMore(origin, at, words, [AT_NULL]);
    cursor := WriteWord(buf, cursor, AT_NULL);
    words := words + [AT_NULL];
    WriteMore(origin, at, words, [0]);
    cursor := WriteWord(buf, cursor, 0);
    assert words + [0] == Vector(argv[..argc], envp[..envc], auxv);
  }

  // ---- the whole stack ----

  /** The same check as `Fits`, in the order errors are reported. */
  function CheckInputs(bufLen: nat, top: u64, argv: seq<seq<u8>>, envp: seq<seq<u8>>, tail: seq<Blob>, auxv: seq<Aux>)
    : Result<(), StackLayoutError>
  {
    if bufLen == 0 then Failure(BufferTooSmall)
    else if top < bufLen then Failure(InvalidStackTop)
    else if exists i :: 0 <= i < |auxv| && auxv[i].0 == AT_NULL then Failure(PrematureAtNull)
    else if |Flatten(Chunks(argv, envp, tail))| + VectorBytes(|argv|, |envp|, |auxv|) + 15 > U64_MAX then
      Failure(StringOverflow)
    else if |Flatten(Chunks(argv, envp, tail))| + VectorBytes(|argv|, |envp|, |auxv|) + 15 > bufLen then
      Failure(BufferTooSmall)
    else if |argv| > MAX_STRINGS || |envp| > MAX_STRINGS || |tail| > MAX_TAIL then Failure(BufferTooSmall)
    else Success(())
  }

  method SumStrings(strings: seq<seq<u8>>) returns (n: nat)
    ensures n == |Flatten(Terminated(strings))|
  {
    ghost var chunks := Terminated(strings);
    n := 0;
    for i := 0 to |strings|
      invariant n == |Flatten(chunks[..i])|
    {
      FlattenLast(chunks, i);
      n := n + |strings[i]| + 1;
    }
    assert chunks[..|chunks|] == chunks;
  }

  method SumBlobs(tail: seq<Blob>) returns (n: nat)
    ensures n == |Flatten(BlobChunks(tail))|
  {
    ghost var chunks := BlobChunks(tail);
    n := 0;
    for i := 0 to |tail|
      invariant n == |Flatten(chunks[..i])|
    {
      FlattenLast(chunks, i);
      n := n + |tail[i].bytes| + if tail[i].nulTerminate then 1 else 0;
    }
    assert chunks[..|chunks|] == chunks;
  }

  lemma FlattenParts(argv: seq<seq<u8>>, envp: seq<seq<u8>>, tail: seq<Blob>)
    ensures Flatten(Chunks(argv, envp, tail))
            == Flatten(Terminated(argv)) + Flatten(Terminated(envp)) + Flatten(BlobChunks(tail))
  {
    FlattenAppend(Terminated(argv) + Terminated(envp), BlobChunks(tail));
    FlattenAppend(Terminated(argv), Terminated(envp));
  }

  /** Where a chunk of the argument, environment or blob part lies in the whole region. */
  lemma PartOffset(before: seq<seq<u8>>, part: seq<seq<u8>>, after: seq<seq<u8>>, i: nat)
    requires i <= |part|
    ensures Offset(before + part + after, |before| + i) == |Flatten(before)| + Offset(part, i)
  {
    assert (before + part + after)[..|before| + i] == before + part[..i];
    FlattenAppend(before, part[..i]);
  }

  /** Everything fits but for the number of strings, which is checked after the buffer was cleared. */
  predicate RoomFor(bufLen: nat, top: u64, argv: seq<seq<u8>>, envp: seq<seq<u8>>, tail: seq<Blob>, auxv: seq<Aux>) {
    && 0 < bufLen <= top && (forall i :: 0 <= i < |auxv| ==> auxv[i].0 != AT_NULL)
    && |Flatten(Chunks(argv, envp, tail))| + VectorBytes(|argv|, |envp|, |auxv|) + 15 <= bufLen
  }

  /** The checks accept exactly the inputs that fit. */
  lemma InputsFitIff(bufLen: nat, top: u64, argv: seq<seq<u8>>, envp: seq<seq<u8>>, tail: seq<Blob>, auxv: seq<Aux>)
    ensures CheckInputs(bufLen, top, argv, envp, tail, auxv).Success? <==> Fits(bufLen, top, argv, envp, tail, auxv)
  {
  }

  datatype StackImage = StackImage(rsp: nat, bytesUsed: nat, tailAddrs: seq<u64>)

  /** The arguments, then the environment strings, from `at` on. */
  method PlaceBoth(buf: array<u8>, at: nat, base: nat, argv: seq<seq<u8>>, envp: seq<seq<u8>>, a: array<u64>,
                   e: array<u64>)
    returns (end: nat)
    requires at + |Flatten(Terminated(argv))| + |Flatten(Terminated(envp))| <= buf.Length
    requires base + buf.Length <= U64_MAX
    requires |argv| <= a.Length && |envp| <= e.Length && a != e && buf as object != a && buf as object != e
    modifies buf, a, e
    ensures end == at + |Flatten(Terminated(argv))| + |Flatten(Terminated(envp))|
    ensures buf[..] == Overwrite(old(buf[..]), at, Flatten(Terminated(argv)) + Flatten(Terminated(envp)))
    ensures forall i :: 0 <= i < |argv| ==> a[i] == base + at + Offset(Terminated(argv), i)
    ensures forall i ::
              0 <= i < |envp| ==> e[i] == base + at + |Flatten(Terminated(argv))| + Offset(Terminated(envp), i)
  {
    hide Flatten, Offset;
    OverwriteMore(buf[..], at, Flatten(Terminated(argv)), Flatten(Terminated(envp)));
    hide Overwrite;
    end := PlaceStrings(buf, at, base + at, argv, a);
    end := PlaceStrings(buf, end, base + end, envp, e);
  }

  lemma WholeRegion(origin: seq<u8>, at: nat, argv: seq<seq<u8>>, envp: seq<seq<u8>>, tail: seq<Blob>)
    requires at + |Flatten(Chunks(argv, envp, tail))| == |origin|
    ensures var fa, fe, ft := Flatten(Terminated(argv)), Flatten(Terminated(envp)), Flatten(BlobChunks(tail));
            && |Chunks(argv, envp, tail)| == |argv| + |envp| + |tail|
            && |Flatten(Chunks(argv, envp, tail))| == |fa| + |fe| + |ft|
            && Overwrite(Overwrite(origin, at, fa + fe), at + |fa| + |fe|, ft)
               == origin[..at] + Flatten(Chunks(argv, envp, tail))
  {
    FlattenParts(argv, envp, tail);
    hide Flatten;
    OverwriteMore(origin, at, Flatten(Terminated(argv)) + Flatten(Terminated(envp)), Flatten(BlobChunks(tail)));
  }

  /** Where both string lists, written from `at` on, end. */
  ghost function StringsEnd(at: nat, argv: seq<seq<u8>>, envp: seq<seq<u8>>): nat {
    at + |Flatten(Terminated(argv))| + |Flatten(Terminated(envp))|
  }

  /** Both string lists have been written over `before` at the start of the string area. */
  ghost predicate StringsPlaced(mem: seq<u8>, before: seq<u8>, at: nat, argv: seq<seq<u8>>, envp: seq<seq<u8>>,
                                tail: seq<Blob>)
  {
    && |mem| == |before| && at + |Flatten(Chunks(argv, envp, tail))| == |before|
    && StringsEnd(at, argv, envp) <= |before|
    && mem == Overwrite(before, at, Flatten(Terminated(argv)) + Flatten(Terminated(envp)))
  }

  /** The blobs behind both string lists complete the string area; `t` receives their addresses. */
  method PlaceTail(buf: array<u8>, at: nat, end: nat, base: nat, argv: seq<seq<u8>>, envp: seq<seq<u8>>,
                   tail: seq<Blob>,
                   t: array<u64>, ghost before: seq<u8>)
    requires StringsPlaced(buf[..], before, at, argv, envp, tail) && end == StringsEnd(at, argv, envp)
    requires base + buf.Length <= U64_MAX
    requires |tail| <= t.Length && buf as object != t
    modifies buf, t
    ensures buf[..] == before[..at] + Flatten(Chunks(argv, envp, tail))
    ensures forall i :: 0 <= i < |tail| ==> t[i] == base + at + Offset(Chunks(argv, envp, tail), |argv| + |envp| + i)
  {
    hide Flatten, Offset, Chunks, Overwrite, Terminated, BlobChunks;
    WholeRegion(before, at, argv, envp, tail);
    var _ := PlaceBlobs(buf, end, base + end, tail, t);
    forall i | 0 <= i < |tail| ensures t[i] == base + at + Offset(Chunks(argv, envp, tail), |argv| + |envp| + i) {
      BlobOffset(argv, envp, tail, i);
    }
  }

  lemma PointsToArguments(start: nat, argv: seq<seq<u8>>, envp: seq<seq<u8>>, tail: seq<Blob>, p: seq<nat>)
    requires |p| == |argv| && forall i :: 0 <= i < |argv| ==> p[i] == start + Offset(Terminated(argv), i)
    ensures PointsTo(start, Chunks(argv, envp, tail), 0, p, argv)
  {
    var chunks, a, rest := Chunks(argv, envp, tail), Terminated(argv), Terminated(envp) + BlobChunks(tail);
    assert chunks == [] + a + rest;
    forall i | 0 <= i < |argv| ensures p[i] == start + Offset(chunks, 0 + i) && chunks[0 + i] == argv[i] + [0] {
      PartOffset([], a, rest, i);
      assert a[i] == argv[i] + [0];
    }
  }

  lemma PointsToEnvironment(start: nat, argv: seq<seq<u8>>, envp: seq<seq<u8>>, tail: seq<Blob>, p: seq<nat>)
    requires |p| == |envp|
    requires forall i :: 0 <= i < |envp| ==> p[i] == start + |Flatten(Terminated(argv))| + Offset(Terminated(envp), i)
    ensures PointsTo(start, Chunks(argv, envp, tail), |argv|, p, envp)
  {
    var chunks, e := Chunks(argv, envp, tail), Terminated(envp);
    forall i | 0 <= i < |envp|
      ensures p[i] == start + Offset(chunks, |argv| + i) && chunks[|argv| + i] == envp[i] + [0]
    {
      PartOffset(Terminated(argv), e, BlobChunks(tail), i);
      assert e[i] == envp[i] + [0];
    }
  }

  lemma BlobOffset(argv: seq<seq<u8>>, envp: seq<seq<u8>>, tail: seq<Blob>, i: nat)
    requires i <= |tail|
    ensures Offset(Chunks(argv, envp, tail), |argv| + |envp| + i)
              == |Flatten(Terminated(argv))| + |Flatten(Terminated(envp))| + Offset(BlobChunks(tail), i)
  {
    var before, blobs := Terminated(argv) + Terminated(envp), BlobChunks(tail);
    FlattenAppend(Terminated(argv), Terminated(envp));
    assert before + blobs + [] == Chunks(argv, envp, tail);
    PartOffset(before, blobs, [], i);
  }

  method Fill(buf: array<u8>, lo: nat, hi: nat)
    requires lo <= hi <= buf.Length
    modifies buf
    ensures buf[..lo] == old(buf[..lo]) && buf[hi..] == old(buf[hi..])
    ensures forall k :: lo <= k < hi ==> buf[k] == 0
  {
    for i := lo to hi
      invariant buf[..lo] == old(buf[..lo]) && buf[hi..] == old(buf[hi..])
      invariant forall k :: lo <= k < i ==> buf[k] == 0
    {
      buf[i] := 0;
    }
  }

  /** The vector region below the strings, zero padded up to them. */
  method PlaceVector(buf: array<u8>, l: Layout, a: array<u64>, e: array<u64>, argv: seq<seq<u8>>, envp: seq<seq<u8>>,
                     tail: seq<Blob>, auxv: seq<Aux>)
    requires |argv| <= a.Length && |envp| <= e.Length && |argv| <= MAX_STRINGS && buf as object != a
    requires buf as object != e
    requires l.vector + VectorBytes(|argv|, |envp|, |auxv|) <= l.strings <= buf.Length
    requires buf[l.strings..] == Flatten(Chunks(argv, envp, tail))
    requires PointsTo(l.base + l.strings, Chunks(argv, envp, tail), 0, a[..|argv|], argv)
    requires PointsTo(l.base + l.strings, Chunks(argv, envp, tail), |argv|, e[..|envp|], envp)
    modifies buf
    ensures buf[..l.vector] == old(buf[..l.vector]) && buf[l.strings..] == old(buf[l.strings..])
    ensures forall k :: l.vector + VectorBytes(|argv|, |envp|, |auxv|) <= k < l.strings ==> buf[k] == 0
    ensures Placed(buf[..], l, a[..|argv|], e[..|envp|], argv, envp, tail, auxv)
  {
    hide Flatten, PointsTo, EncodeWords, Vector, Chunks;
    Fill(buf, l.vector, l.strings);
    ghost var filled := buf[..];
    var n := VectorBytes(|argv|, |envp|, |auxv|);
    WriteVector(buf, l.vector, a, |argv|, e, |envp|, auxv);
    ghost var mem := buf[..];
    assert mem[..l.vector] == filled[..l.vector] && mem[l.vector + n..] == filled[l.vector + n..];
    assert mem[l.strings..] == mem[l.vector + n..][l.strings - (l.vector + n)..] == filled[l.strings..];
    forall k | l.vector + n <= k < l.strings ensures buf[k] == 0 {
      assert mem[k] == mem[l.vector + n..][k - (l.vector + n)];
      assert filled[k] == filled[l.vector + n..][k - (l.vector + n)];
    }
  }

  /** The checks made before the buffer is touched; `r` is the number of string bytes. */
  method CheckRoom(bufLen: nat, top: u64, argv: seq<seq<u8>>, envp: seq<seq<u8>>, tail: seq<Blob>, auxv: seq<Aux>)
    returns (r: Result<nat, StackLayoutError>)
    ensures r.Success? <==> RoomFor(bufLen, top, argv, envp, tail, auxv)
    ensures r.Success? ==> r.value == |Flatten(Chunks(argv, envp, tail))|
    ensures r.Failure? ==> CheckInputs(bufLen, top, argv, envp, tail, auxv) == Failure(r.error)
  {
    hide Flatten, Chunks;
    if bufLen == 0 { return Failure(BufferTooSmall); }
    if top < bufLen { return Failure(InvalidStackTop); }
    for i := 0 to |auxv|
      invariant forall j :: 0 <= j < i ==> auxv[j].0 != AT_NULL
    {
      if auxv[i].0 == AT_NULL { return Failure(PrematureAtNull); }
    }
    var na := SumStrings(argv);
    var ne := SumStrings(envp);
    var nt := SumBlobs(tail);
    FlattenParts(argv, envp, tail);
    var n, v := na + ne + nt, VectorBytes(|argv|, |envp|, |auxv|);
    if v + n + 15 > U64_MAX { return Failure(StringOverflow); }
    if v + n + 15 > bufLen { return Failure(BufferTooSmall); }
    r := Success(n);
  }

  lemma RoomAndCounts(bufLen: nat, top: u64, argv: seq<seq<u8>>, envp: seq<seq<u8>>, tail: seq<Blob>, auxv: seq<Aux>)
    ensures Fits(bufLen, top, argv, envp, tail, auxv)
            <==> RoomFor(bufLen, top, argv, envp, tail, auxv)
                 && |argv| <= MAX_STRINGS && |envp| <= MAX_STRINGS && |tail| <= MAX_TAIL
    ensures RoomFor(bufLen, top, argv, envp, tail, auxv) && !Fits(bufLen, top, argv, envp, tail, auxv)
            ==> CheckInputs(bufLen, top, argv, envp, tail, auxv) == Failure(BufferTooSmall)
  {
    hide Flatten, Chunks;
  }

  /** What a program finds on a stack built in `mem`, which was `before` below the vector. */
  ghost predicate Built(mem: seq<u8>, before: seq<u8>, top: u64, argv: seq<seq<u8>>, envp: seq<seq<u8>>,
                        tail: seq<Blob>,
                        auxv: seq<Aux>, image: StackImage)
    requires |mem| == |before| && Fits(|mem|, top, argv, envp, tail, auxv)
  {
    var l := LayoutOf(|mem|, top, argv, envp, tail, auxv);
    && image.rsp == l.base + l.vector && image.rsp % 16 == 0 && image.bytesUsed == top - image.rsp
    && l.vector + VectorBytes(|argv|, |envp|, |auxv|) <= l.strings <= |mem|
    && mem[..l.vector] == before[..l.vector]
    && mem[l.strings..] == Flatten(Chunks(argv, envp, tail))
    && (forall k :: l.vector + VectorBytes(|argv|, |envp|, |auxv|) <= k < l.strings ==> mem[k] == 0)
    && ReadEntry(mem, l.base, image.rsp) == Some(Entry(|argv|, CPrefixes(argv), CPrefixes(envp), auxv))
    && |image.tailAddrs| == |tail|
    && forall i :: 0 <= i < |tail| ==>
         image.tailAddrs[i] == l.base + l.strings + Offset(Chunks(argv, envp, tail), |argv| + |envp| + i)
  }

  /** Rounding the stack pointer down gives the layout. */
  lemma LayoutRounds(bufLen: nat, top: u64, argv: seq<seq<u8>>, envp: seq<seq<u8>>, tail: seq<Blob>, auxv: seq<Aux>)
    requires Fits(bufLen, top, argv, envp, tail, auxv)
    ensures var base, at := top - bufLen, bufLen - |Flatten(Chunks(argv, envp, tail))|;
            var rsp := AlignDown(base + at - VectorBytes(|argv|, |envp|, |auxv|), 16);
            base <= rsp && LayoutOf(bufLen, top, argv, envp, tail, auxv) == Layout(base, rsp - base, at)
  {
    hide Flatten, Chunks;
    var base, at := top - bufLen, bufLen - |Flatten(Chunks(argv, envp, tail))|;
    assert IsPowerOfTwo(16);
    AlignDownExact(base + at - VectorBytes(|argv|, |envp|, |auxv|), 16);
  }

  /** Completes a stack whose strings are in place: the blobs, then the vector. */
  method BuildRest(buf: array<u8>, top: u64, n: nat, end: nat, argv: seq<seq<u8>>, envp: seq<seq<u8>>, tail: seq<Blob>,
                   auxv: seq<Aux>, a: array<u64>, e: array<u64>, ghost before: seq<u8>)
    returns (image: StackImage)
    requires |before| == buf.Length && Fits(buf.Length, top, argv, envp, tail, auxv)
    requires n == |Flatten(Chunks(argv, envp, tail))|
    requires StringsPlaced(buf[..], before, buf.Length - n, argv, envp, tail)
    requires end == StringsEnd(buf.Length - n, argv, envp)
    requires |argv| <= a.Length && |envp| <= e.Length && buf as object != a && buf as object != e
    requires PointsTo(top - n, Chunks(argv, envp, tail), 0, a[..|argv|], argv)
    requires PointsTo(top - n, Chunks(argv, envp, tail), |argv|, e[..|envp|], envp)
    modifies buf
    ensures Built(buf[..], before, top, argv, envp, tail, auxv, image)
  {
    hide Flatten, Chunks, PointsTo, Placed, ReadEntry, CPrefixes, Offset, StringsPlaced, StringsEnd;
    var v := VectorBytes(|argv|, |envp|, |auxv|);
    var base, at := top - buf.Length, buf.Length - n;
    var t := new u64[MAX_TAIL](_ => 0);
    PlaceTail(buf, at, end, base, argv, envp, tail, t, before);
    LayoutRounds(buf.Length, top, argv, envp, tail, auxv);
    hide AlignDown;
    var rsp := AlignDown(base + at - v, 16);
    var l := Layout(base, rsp - base, at);
    PlaceVector(buf, l, a, e, argv, envp, tail, auxv);
    EntryIsRecovered(buf[..], l, a[..|argv|], e[..|envp|], argv, envp, tail, auxv);
    image := StackImage(rsp, top - rsp, t[..|tail|]);
  }

  function Zeros(n: nat): seq<u8> {
    seq(n, _ => 0)
  }

  /** What a refusal for too many strings leaves: the string area cleared, and the strings copied if only the blobs
      were too many. */
  ghost predicate LeftBehind(mem: seq<u8>, before: seq<u8>, argv: seq<seq<u8>>, envp: seq<seq<u8>>, tail: seq<Blob>)
    requires |Flatten(Chunks(argv, envp, tail))| <= |before|
  {
    var n := |Flatten(Chunks(argv, envp, tail))|;
    mem == before[..|before| - n] +
           if |argv| > MAX_STRINGS || |envp| > MAX_STRINGS then Zeros(n)
           else Flatten(Terminated(argv)) + Flatten(Terminated(envp)) + Zeros(|Flatten(BlobChunks(tail))|)
  }

  lemma ClearedIs(mem: seq<u8>, before: seq<u8>, at: nat)
    requires |mem| == |before| && at <= |mem| && mem[..at] == before[..at]
    requires forall k :: at <= k < |mem| ==> mem[k] == 0
    ensures mem == before[..at] + Zeros(|mem| - at)
  {
    var zeros := Zeros(|mem| - at);
    forall k | 0 <= k < |mem| ensures mem[k] == (before[..at] + zeros)[k] {
      if k < at { assert mem[k] == mem[..at][k]; }
    }
  }

  /** Strings over a cleared area leave zeros behind them. */
  lemma StringsOverZeros(before: seq<u8>, at: nat, a: seq<u8>, rest: nat)
    requires at + |a| + rest == |before|
    ensures Overwrite(before[..at] + Zeros(|a| + rest), at, a) == before[..at] + a + Zeros(rest)
  {
    assert (before[..at] + Zeros(|a| + rest))[at + |a|..] == Zeros(rest);
  }

  /** Builds the stack, or reports why it does not fit. A built stack has a 16-byte aligned
      pointer from which a program recovers its arguments, environment and auxiliary vector. */
  method BuildInitialStack(buf: array<u8>, top: u64, argv: seq<seq<u8>>, envp: seq<seq<u8>>, tail: seq<Blob>,
                           auxv: seq<Aux>)
    returns (r: Result<StackImage, StackLayoutError>)
    modifies buf
    ensures r.Success? <==> Fits(buf.Length, top, argv, envp, tail, auxv)
    ensures r.Failure? ==> CheckInputs(buf.Length, top, argv, envp, tail, auxv) == Failure(r.error)
    ensures r.Failure? && !RoomFor(buf.Length, top, argv, envp, tail, auxv) ==> buf[..] == old(buf[..])
    ensures r.Failure? && RoomFor(buf.Length, top, argv, envp, tail, auxv) ==>
              LeftBehind(buf[..], old(buf[..]), argv, envp, tail)
    ensures r.Success? ==> Built(buf[..], old(buf[..]), top, argv, envp, tail, auxv, r.value)
  {
    hide Flatten, Chunks, CheckInputs, RoomFor, Fits, ReadEntry, CPrefixes, Offset, Built, PointsTo, Overwrite, Zeros;
    RoomAndCounts(buf.Length, top, argv, envp, tail, auxv);
    var room := CheckRoom(buf.Length, top, argv, envp, tail, auxv);
    if room.Failure? { return Failure(room.error); }
    RoomBound(buf.Length, top, argv, envp, tail, auxv);
    ghost var before := buf[..];
    var at := buf.Length - room.value;
    Fill(buf, at, buf.Length);
    ghost var cleared := buf[..];
    ClearedIs(cleared, before, at);
    if |argv| > MAX_STRINGS || |envp| > MAX_STRINGS { return Failure(BufferTooSmall); }
    var a, e := new u64[MAX_STRINGS](_ => 0), new u64[MAX_STRINGS](_ => 0);
    var end := PlaceBoth(buf, at, top - buf.Length, argv, envp, a, e);
    if |tail| > MAX_TAIL {
      StringsOverZeros(before, at, Flatten(Terminated(argv)) + Flatten(Terminated(envp)), |Flatten(BlobChunks(tail))|);
      return Failure(BufferTooSmall);
    }
    PointsToArguments(top - room.value, argv, envp, tail, a[..|argv|]);
    PointsToEnvironment(top - room.value, argv, envp, tail, e[..|envp|]);
    var image := BuildRest(buf, top, room.value, end, argv, envp, tail, auxv, a, e, cleared);
    BuiltFrom(buf[..], cleared, before, top, argv, envp, tail, auxv, image);
    r := Success(image);
  }

  lemma RoomBound(bufLen: nat, top: u64, argv: seq<seq<u8>>, envp: seq<seq<u8>>, tail: seq<Blob>, auxv: seq<Aux>)
    requires RoomFor(bufLen, top, argv, envp, tail, auxv)
    ensures |Flatten(Chunks(argv, envp, tail))| <= bufLen <= top
    ensures |Flatten(Chunks(argv, envp, tail))|
         == |Flatten(Terminated(argv))| + |Flatten(Terminated(envp))| + |Flatten(BlobChunks(tail))|
  {
    FlattenParts(argv, envp, tail);
    hide Flatten, Chunks;
  }

  /** A built stack says nothing of what its string area held before. */
  lemma BuiltFrom(mem: seq<u8>, cleared: seq<u8>, before: seq<u8>, top: u64, argv: seq<seq<u8>>, envp: seq<seq<u8>>,
                  tail: seq<Blob>, auxv: seq<Aux>, image: StackImage)
    requires |mem| == |cleared| == |before| && Fits(|mem|, top, argv, envp, tail, auxv)
    requires Built(mem, cleared, top, argv, envp, tail, auxv, image)
    requires var at := |mem| - |Flatten(Chunks(argv, envp, tail))|; at >= 0 && cleared[..at] == before[..at]
    ensures Built(mem, before, top, argv, envp, tail, auxv, image)
  {
    hide Flatten, Chunks, ReadEntry, CPrefixes, Offset, Fits;
    var l := LayoutOf(|mem|, top, argv, envp, tail, auxv);
    var at := |mem| - |Flatten(Chunks(argv, envp, tail))|;
    assert cleared[..l.vector] == cleared[..at][..l.vector] && before[..l.vector] == before[..at][..l.vector];
  }
}
