/** The process-entry stack: its bytes, and how a program reads them back. */
module StackImages {
  import opened Wrappers

  const AT_NULL: u64 := 0
  const MAX_STRINGS: nat := 64
  const MAX_TAIL: nat := 8

  datatype Blob = Blob(bytes: seq<u8>, nulTerminate: bool)

  type Aux = (u64, u64)

  // ---- words and chunks ----

  function Capacity(n: nat): nat { if n == 0 then 1 else 256 * Capacity(n - 1) }

  /** The low `n` bytes of `v`, least significant first. */
  function LittleEndian(v: nat, n: nat): (b: seq<u8>)
    ensures |b| == n
  {
    if n == 0 then [] else [v % 256] + LittleEndian(v / 256, n - 1)
  }

  function Value(b: seq<u8>): nat {
    if b == [] then 0 else b[0] + 256 * Value(b[1..])
  }

  lemma {:induction false} BytesRoundTrip(v: nat, n: nat)
    requires v < Capacity(n)
    ensures Value(LittleEndian(v, n)) == v
  {
    if n > 0 {
      BytesRoundTrip(v / 256, n - 1);
      assert LittleEndian(v, n)[1..] == LittleEndian(v / 256, n - 1);
    }
  }

  function EncodeWord(v: u64): (b: seq<u8>)
    ensures |b| == 8
  {
    LittleEndian(v, 8)
  }

  lemma WordRoundTrip(v: u64)
    ensures Value(EncodeWord(v)) == v
  {
    assert Capacity(4) == 0x1_0000_0000;
    assert Capacity(8) == 0x1_0000_0000_0000_0000;
    BytesRoundTrip(v, 8);
  }

  function EncodeWords(words: seq<u64>): (b: seq<u8>)
    ensures |b| == 8 * |words|
  {
    if words == [] then [] else EncodeWord(words[0]) + EncodeWords(words[1..])
  }

  function Flatten(chunks: seq<seq<u8>>): seq<u8> {
    if chunks == [] then [] else Flatten(chunks[..|chunks| - 1]) + chunks[|chunks| - 1]
  }

  function Terminated(strings: seq<seq<u8>>): (chunks: seq<seq<u8>>)
    ensures |chunks| == |strings|
  {
    seq(|strings|, i requires 0 <= i < |strings| => strings[i] + [0])
  }

  function BlobChunk(blob: Blob): seq<u8> {
    if blob.nulTerminate then blob.bytes + [0] else blob.bytes
  }

  function BlobChunks(tail: seq<Blob>): (chunks: seq<seq<u8>>)
    ensures |chunks| == |tail|
  {
    seq(|tail|, i requires 0 <= i < |tail| => BlobChunk(tail[i]))
  }

  /** The string region: arguments, environment, then the extra blobs. */
  function Chunks(argv: seq<seq<u8>>, envp: seq<seq<u8>>, tail: seq<Blob>): seq<seq<u8>> {
    Terminated(argv) + Terminated(envp) + BlobChunks(tail)
  }

  /** Byte offset of a chunk within the region. */
  function Offset(chunks: seq<seq<u8>>, i: nat): nat
    requires i <= |chunks|
  {
    |Flatten(chunks[..i])|
  }

  function VectorBytes(argc: nat, envc: nat, auxc: nat): nat { 8 * (1 + argc + 1 + envc + 1 + 2 * (auxc + 1)) }

  function AuxWords(auxv: seq<Aux>): (w: seq<u64>)
    ensures |w| == 2 * |auxv|
  {
    if auxv == [] then [] else [auxv[0].0, auxv[0].1] + AuxWords(auxv[1..])
  }

  /** The vector region as words: argc, argument pointers, NULL, environment pointers, NULL,
      auxiliary pairs, and the final null pair. */
  function Vector(argv: seq<u64>, envp: seq<u64>, auxv: seq<Aux>): (w: seq<u64>)
    requires |argv| <= MAX_STRINGS
    ensures 8 * |w| == VectorBytes(|argv|, |envp|, |auxv|)
  {
    [|argv|] + argv + [0] + envp + [0] + AuxWords(auxv) + [AT_NULL, 0]
  }

  lemma Reassociate(a: seq<u8>, b: seq<u8>, c: seq<u8>)
    ensures a + (b + c) == (a + b) + c
  {
  }

  lemma {:induction false} WordsAppend(a: seq<u64>, b: seq<u64>)
    ensures EncodeWords(a + b) == EncodeWords(a) + EncodeWords(b)
  {
    hide EncodeWord;
    if a == [] {
      assert a + b == b;
    } else {
      WordsAppend(a[1..], b);
      assert (a + b)[1..] == a[1..] + b && (a + b)[0] == a[0];
      Reassociate(EncodeWord(a[0]), EncodeWords(a[1..]), EncodeWords(b));
    }
  }

  lemma {:induction false} AuxAppend(auxv: seq<Aux>, i: nat)
    requires i < |auxv|
    ensures AuxWords(auxv[..i + 1]) == AuxWords(auxv[..i]) + [auxv[i].0, auxv[i].1]
  {
    if i > 0 {
      AuxAppend(auxv[1..], i - 1);
      assert auxv[1..][..i] == auxv[..i + 1][1..] && auxv[1..][..i - 1] == auxv[..i][1..];
    }
  }

  lemma {:induction false} FlattenSlice(chunks: seq<seq<u8>>, i: nat)
    requires i < |chunks|
    ensures Offset(chunks, i) + |chunks[i]| <= |Flatten(chunks)|
    ensures Flatten(chunks)[Offset(chunks, i)..Offset(chunks, i) + |chunks[i]|] == chunks[i]
  {
    var n := |chunks| - 1;
    if i < n {
      FlattenSlice(chunks[..n], i);
      assert chunks[..n][..i] == chunks[..i];
    }
  }

  lemma {:induction false} FlattenAppend(a: seq<seq<u8>>, b: seq<seq<u8>>)
    ensures Flatten(a + b) == Flatten(a) + Flatten(b)
  {
    if b == [] {
      assert a + b == a;
    } else {
      FlattenAppend(a, b[..|b| - 1]);
      assert (a + b)[..|a + b| - 1] == a + b[..|b| - 1];
    }
  }

  // ---- layout ----

  datatype StackLayoutError = BufferTooSmall | InvalidStackTop | StringOverflow | PrematureAtNull

  /** Exactly what a caller must provide for the stack to be built. */
  predicate Fits(bufLen: nat, top: u64, argv: seq<seq<u8>>, envp: seq<seq<u8>>, tail: seq<Blob>, auxv: seq<Aux>) {
    && bufLen <= top
    && (forall i :: 0 <= i < |auxv| ==> auxv[i].0 != AT_NULL)
    && VectorBytes(|argv|, |envp|, |auxv|) + |Flatten(Chunks(argv, envp, tail))| + 15 <= bufLen
    && |argv| <= MAX_STRINGS && |envp| <= MAX_STRINGS && |tail| <= MAX_TAIL
  }

  /** Offsets within the buffer: the vector starts at `vector`, the strings at `strings`. */
  datatype Layout = Layout(base: nat, vector: nat, strings: nat)

  function LayoutOf(bufLen: nat, top: u64, argv: seq<seq<u8>>, envp: seq<seq<u8>>, tail: seq<Blob>, auxv: seq<Aux>)
    : (l: Layout)
    requires Fits(bufLen, top, argv, envp, tail, auxv)
    ensures l.base + bufLen == top && l.strings + |Flatten(Chunks(argv, envp, tail))| == bufLen
    ensures (l.base + l.vector) % 16 == 0
    ensures l.vector + VectorBytes(|argv|, |envp|, |auxv|) <= l.strings
    ensures l.strings - (l.vector + VectorBytes(|argv|, |envp|, |auxv|)) < 16
  {
    var base := top - bufLen;
    var strings := bufLen - |Flatten(Chunks(argv, envp, tail))|;
    var unaligned := base + strings - VectorBytes(|argv|, |envp|, |auxv|);
    Layout(base, unaligned / 16 * 16 - base, strings)
  }

  lemma {:induction false} OffsetBound(chunks: seq<seq<u8>>, i: nat)
    requires i <= |chunks|
    ensures Offset(chunks, i) <= |Flatten(chunks)|
    decreases |chunks| - i
  {
    if i < |chunks| {
      OffsetBound(chunks, i + 1);
      assert chunks[..i + 1][..i] == chunks[..i];
    } else {
      assert chunks[..i] == chunks;
    }
  }

  /** The pointers address consecutive chunks that are the terminated strings. */
  ghost predicate PointsTo(start: nat, chunks: seq<seq<u8>>, from_: nat, pointers: seq<nat>, strings: seq<seq<u8>>) {
    && |pointers| == |strings| && from_ + |strings| <= |chunks|
    && (forall i ::
          0 <= i < |strings| ==>
            pointers[i] == start + Offset(chunks, from_ + i) && chunks[from_ + i] == strings[i] + [0])
  }

  /** Memory holding a built stack: the vector of words at `vector` points into the chunks that
      fill memory from `strings` up. */
  ghost predicate Placed(mem: seq<u8>, l: Layout, a: seq<u64>, e: seq<u64>,
                         argv: seq<seq<u8>>, envp: seq<seq<u8>>, tail: seq<Blob>, auxv: seq<Aux>)
  {
    var chunks := Chunks(argv, envp, tail);
    && |a| == |argv| <= MAX_STRINGS && |e| == |envp|
    && l.vector + VectorBytes(|a|, |e|, |auxv|) <= l.strings <= |mem|
    && mem[l.vector..l.vector + VectorBytes(|a|, |e|, |auxv|)] == EncodeWords(Vector(a, e, auxv))
    && mem[l.strings..] == Flatten(chunks)
    && PointsTo(l.base + l.strings, chunks, 0, a, argv)
    && PointsTo(l.base + l.strings, chunks, |argv|, e, envp)
  }
}
