/** A program walking its entry stack from the stack pointer recovers what was put there. */
module StackReader {
  import opened Wrappers
  import opened StackImages

  // ---- the walk, knowing nothing but memory and the stack pointer ----

  function WordAt(mem: seq<u8>, at: nat): Option<nat> {
    if at + 8 <= |mem| then Some(Value(mem[at..at + 8])) else None
  }

  /** Pointers up to the first NULL, and the offset just after it. */
  function PointersAt(mem: seq<u8>, at: nat): Option<(seq<nat>, nat)>
    decreases |mem| - at
  {
    match WordAt(mem, at)
    case None => None
    case Some(0) => Some(([], at + 8))
    case Some(p) =>
      match PointersAt(mem, at + 8)
      case None => None
      case Some((rest, end)) => Some(([p] + rest, end))
  }

  /** Auxiliary pairs up to the first null type. */
  function AuxAt(mem: seq<u8>, at: nat): Option<seq<(nat, nat)>>
    decreases |mem| - at
  {
    match (WordAt(mem, at), WordAt(mem, at + 8))
    case (Some(kind), Some(value)) =>
      if kind == AT_NULL then Some([])
      else
        (match AuxAt(mem, at + 16)
         case None => None
         case Some(rest) => Some([(kind, value)] + rest))
    case _ => None
  }

  /** Bytes up to the first NUL. */
  function CStringAt(mem: seq<u8>, at: nat): Option<seq<u8>>
    decreases |mem| - at
  {
    if at >= |mem| then None
    else if mem[at] == 0 then Some([])
    else
      match CStringAt(mem, at + 1)
      case None => None
      case Some(rest) => Some([mem[at]] + rest)
  }

  function CStringsAt(mem: seq<u8>, base: nat, pointers: seq<nat>): Option<seq<seq<u8>>> {
    if pointers == [] then Some([])
    else if pointers[0] < base then None
    else
      match (CStringAt(mem, pointers[0] - base), CStringsAt(mem, base, pointers[1..]))
      case (Some(s), Some(rest)) => Some([s] + rest)
      case _ => None
  }

  datatype Entry = Entry(argc: nat, argv: seq<seq<u8>>, envp: seq<seq<u8>>, auxv: seq<(nat, nat)>)

  /** What a program sees: memory `mem` starts at address `base`. */
  function ReadEntry(mem: seq<u8>, base: nat, rsp: nat): Option<Entry> {
    if rsp < base then None
    else
      match (WordAt(mem, rsp - base), PointersAt(mem, rsp - base + 8))
      case (Some(argc), Some((argv, afterArgv))) =>
        (match PointersAt(mem, afterArgv)
         case None => None
         case Some((envp, afterEnvp)) =>
           match (CStringsAt(mem, base, argv), CStringsAt(mem, base, envp), AuxAt(mem, afterEnvp))
           case (Some(a), Some(e), Some(x)) => Some(Entry(argc, a, e, x))
           case _ => None)
      case _ => None
  }

  // ---- strings ----

  /** A byte string up to its first NUL: all of it exactly when it has none. */
  function CPrefix(s: seq<u8>): (r: seq<u8>)
    ensures r == s <==> 0 !in s
    ensures |r| <= |s|
  {
    if s == [] || s[0] == 0 then []
    else
      assert s == [s[0]] + s[1..];
      [s[0]] + CPrefix(s[1..])
  }

  function CPrefixes(strings: seq<seq<u8>>): (r: seq<seq<u8>>)
    ensures |r| == |strings|
    ensures forall i :: 0 <= i < |strings| ==> r[i] == CPrefix(strings[i])
    ensures r == strings <==> forall i :: 0 <= i < |strings| ==> 0 !in strings[i]
  {
    seq(|strings|, i requires 0 <= i < |strings| => CPrefix(strings[i]))
  }

  lemma {:induction false} ReadsCString(mem: seq<u8>, at: nat, s: seq<u8>)
    requires at + |s| + 1 <= |mem| && mem[at..at + |s| + 1] == s + [0]
    ensures CStringAt(mem, at) == Some(CPrefix(s))
    decreases |s|
  {
    assert mem[at] == (s + [0])[0];
    if s != [] && s[0] != 0 {
      assert mem[at + 1..at + |s| + 1] == mem[at..at + |s| + 1][1..] == s[1..] + [0];
      ReadsCString(mem, at + 1, s[1..]);
    }
  }

  lemma {:induction false} ReadsCStrings(mem: seq<u8>, base: nat, pointers: seq<nat>, strings: seq<seq<u8>>)
    requires |pointers| == |strings|
    requires forall i :: 0 <= i < |strings| ==>
               && base <= pointers[i] && pointers[i] - base + |strings[i]| + 1 <= |mem|
               && mem[pointers[i] - base..pointers[i] - base + |strings[i]| + 1] == strings[i] + [0]
    ensures CStringsAt(mem, base, pointers) == Some(CPrefixes(strings))
  {
    if pointers != [] {
      ReadsCString(mem, pointers[0] - base, strings[0]);
      ReadsCStrings(mem, base, pointers[1..], strings[1..]);
      FirstPrefix(strings);
    }
  }

  lemma FirstPrefix(strings: seq<seq<u8>>)
    requires strings != []
    ensures CPrefixes(strings) == [CPrefix(strings[0])] + CPrefixes(strings[1..])
  {
    hide CPrefix;
  }

  // ---- vectors ----

  /** Consecutive words of memory. */
  predicate HasWords(mem: seq<u8>, at: nat, words: seq<u64>)
    decreases |words|
  {
    words == [] || (WordAt(mem, at) == Some(words[0]) && HasWords(mem, at + 8, words[1..]))
  }

  lemma {:induction false} EncodedWordsAreThere(mem: seq<u8>, at: nat, words: seq<u64>)
    requires at + 8 * |words| <= |mem| && mem[at..at + 8 * |words|] == EncodeWords(words)
    ensures HasWords(mem, at, words)
    decreases |words|
  {
    hide EncodeWord, Value;
    if words != [] {
      var end := at + 8 * |words|;
      assert mem[at..at + 8] == mem[at..end][..8] == EncodeWord(words[0]);
      assert mem[at + 8..end] == mem[at..end][8..] == EncodeWords(words[1..]);
      WordRoundTrip(words[0]);
      EncodedWordsAreThere(mem, at + 8, words[1..]);
    }
  }

  lemma {:induction false} SplitWords(mem: seq<u8>, at: nat, a: seq<u64>, b: seq<u64>)
    requires HasWords(mem, at, a + b)
    ensures HasWords(mem, at, a) && HasWords(mem, at + 8 * |a|, b)
    decreases |a|
  {
    hide WordAt;
    if a == [] {
      assert a + b == b;
    } else {
      assert (a + b)[1..] == a[1..] + b;
      SplitWords(mem, at + 8, a[1..], b);
    }
  }

  lemma {:induction false} ReadsPointers(mem: seq<u8>, at: nat, pointers: seq<u64>)
    requires HasWords(mem, at, pointers + [0]) && forall i :: 0 <= i < |pointers| ==> pointers[i] != 0
    ensures PointersAt(mem, at) == Some((pointers, at + 8 * |pointers| + 8))
    decreases |pointers|
  {
    hide WordAt;
    if pointers != [] {
      assert (pointers + [0])[1..] == pointers[1..] + [0];
      ReadsPointers(mem, at + 8, pointers[1..]);
      assert pointers == [pointers[0]] + pointers[1..];
    }
  }

  lemma {:induction false} ReadsAux(mem: seq<u8>, at: nat, auxv: seq<Aux>)
    requires HasWords(mem, at, AuxWords(auxv) + [AT_NULL, 0]) && forall i :: 0 <= i < |auxv| ==> auxv[i].0 != AT_NULL
    ensures AuxAt(mem, at) == Some(auxv)
    decreases |auxv|
  {
    hide WordAt;
    if auxv == [] {
      assert AuxWords(auxv) + [AT_NULL, 0] == [AT_NULL, 0] && [AT_NULL, 0][1..] == [0];
    } else {
      var words := AuxWords(auxv[1..]) + [AT_NULL, 0];
      assert AuxWords(auxv) + [AT_NULL, 0] == [auxv[0].0] + ([auxv[0].1] + words);
      assert ([auxv[0].0] + ([auxv[0].1] + words))[1..] == [auxv[0].1] + words && ([auxv[0].1] + words)[1..] == words;
      ReadsAux(mem, at + 16, auxv[1..]);
      assert auxv == [auxv[0]] + auxv[1..];
    }
  }

  // ---- the recovery theorem ----

  lemma ReadsChunk(mem: seq<u8>, at: nat, chunks: seq<seq<u8>>, i: nat)
    requires at <= |mem| && mem[at..] == Flatten(chunks) && i < |chunks|
    ensures at + Offset(chunks, i) + |chunks[i]| <= |mem|
    ensures mem[at + Offset(chunks, i)..at + Offset(chunks, i) + |chunks[i]|] == chunks[i]
  {
    FlattenSlice(chunks, i);
    hide Flatten, Offset;
    SliceOfTail(mem, at, Offset(chunks, i), |chunks[i]|);
  }

  lemma SliceOfTail(mem: seq<u8>, at: nat, o: nat, n: nat)
    requires at + o + n <= |mem|
    ensures mem[at + o..at + o + n] == mem[at..][o..o + n]
  {
    var whole, part := mem[at + o..at + o + n], mem[at..][o..o + n];
    forall k | 0 <= k < n ensures whole[k] == part[k] { assert mem[at..][o + k] == mem[at + o + k]; }
  }

  /** Reading the three vectors of an entry stack whose words are in memory. */
  lemma ReadsVector(mem: seq<u8>, at: nat, argv: seq<u64>, envp: seq<u64>, auxv: seq<Aux>)
    requires |argv| <= MAX_STRINGS && HasWords(mem, at, Vector(argv, envp, auxv))
    requires (forall i :: 0 <= i < |argv| ==> argv[i] != 0) && (forall i :: 0 <= i < |envp| ==> envp[i] != 0)
    requires forall i :: 0 <= i < |auxv| ==> auxv[i].0 != AT_NULL
    ensures var second, third := at + 8 * (|argv| + 2), at + 8 * (|argv| + |envp| + 3);
            && WordAt(mem, at) == Some(|argv|) && PointersAt(mem, at + 8) == Some((argv, second))
            && PointersAt(mem, second) == Some((envp, third)) && AuxAt(mem, third) == Some(auxv)
  {
    hide WordAt, PointersAt, AuxAt, AuxWords;
    var third := AuxWords(auxv) + [AT_NULL, 0];
    var second := envp + [0] + third;
    assert Vector(argv, envp, auxv) == [|argv|] + (argv + [0] + second);
    SplitWords(mem, at, [|argv|], argv + [0] + second);
    assert HasWords(mem, at, [|argv|]) && WordAt(mem, at) == Some(|argv|);
    SplitWords(mem, at + 8, argv + [0], second);
    SplitWords(mem, at + 8 * (|argv| + 2), envp + [0], third);
    hide HasWords;
    ReadsPointers(mem, at + 8, argv);
    ReadsPointers(mem, at + 8 * (|argv| + 2), envp);
    ReadsAux(mem, at + 8 * (|argv| + |envp| + 3), auxv);
  }

  /** A block of terminated strings among the chunks reads back through its addresses. */
  lemma ReadsBlock(mem: seq<u8>, base: nat, at: nat, chunks: seq<seq<u8>>, from_: nat, pointers: seq<nat>,
                   strings: seq<seq<u8>>)
    requires at <= |mem| && mem[at..] == Flatten(chunks) && PointsTo(base + at, chunks, from_, pointers, strings)
    ensures CStringsAt(mem, base, pointers) == Some(CPrefixes(strings))
  {
    hide Flatten, CStringsAt, CPrefixes;
    forall i | 0 <= i < |strings|
      ensures base <= pointers[i] && pointers[i] - base + |strings[i]| + 1 <= |mem|
      ensures mem[pointers[i] - base..pointers[i] - base + |strings[i]| + 1] == strings[i] + [0]
    {
      ReadsChunk(mem, at, chunks, from_ + i);
      assert |chunks[from_ + i]| == |strings[i]| + 1;
    }
    ReadsCStrings(mem, base, pointers, strings);
  }

  lemma PlacedVector(mem: seq<u8>, l: Layout, a: seq<u64>, e: seq<u64>, argv: seq<seq<u8>>, envp: seq<seq<u8>>,
                     tail: seq<Blob>, auxv: seq<Aux>)
    requires Placed(mem, l, a, e, argv, envp, tail, auxv) && forall i :: 0 <= i < |auxv| ==> auxv[i].0 != AT_NULL
    ensures var second, third := l.vector + 8 * (|a| + 2), l.vector + 8 * (|a| + |e| + 3);
            && WordAt(mem, l.vector) == Some(|a|) && PointersAt(mem, l.vector + 8) == Some((a, second))
            && PointersAt(mem, second) == Some((e, third)) && AuxAt(mem, third) == Some(auxv)
  {
    hide Flatten, HasWords, Vector, EncodeWords, PointersAt, AuxAt, WordAt, Offset, Chunks;
    EncodedWordsAreThere(mem, l.vector, Vector(a, e, auxv));
    ReadsVector(mem, l.vector, a, e, auxv);
  }

  /** Walking a built stack from its pointer recovers argc, every string up to its first NUL, and
      every auxiliary pair; strings without a NUL come back whole. */
  lemma EntryIsRecovered(mem: seq<u8>, l: Layout, a: seq<u64>, e: seq<u64>,
                         argv: seq<seq<u8>>, envp: seq<seq<u8>>, tail: seq<Blob>, auxv: seq<Aux>)
    requires Placed(mem, l, a, e, argv, envp, tail, auxv)
    requires forall i :: 0 <= i < |auxv| ==> auxv[i].0 != AT_NULL
    ensures ReadEntry(mem, l.base, l.base + l.vector) == Some(Entry(|argv|, CPrefixes(argv), CPrefixes(envp), auxv))
  {
    hide Flatten, PointsTo, Chunks, Vector, EncodeWords, CStringsAt, CPrefixes, PointersAt, AuxAt, WordAt;
    PlacedVector(mem, l, a, e, argv, envp, tail, auxv);
    ReadsBlock(mem, l.base, l.strings, Chunks(argv, envp, tail), 0, a, argv);
    ReadsBlock(mem, l.base, l.strings, Chunks(argv, envp, tail), |argv|, e, envp);
  }

  /** Each extra blob lies at its place after the strings. */
  lemma TailIsThere(mem: seq<u8>, at: nat, argv: seq<seq<u8>>, envp: seq<seq<u8>>, tail: seq<Blob>, i: nat)
    requires at <= |mem| && mem[at..] == Flatten(Chunks(argv, envp, tail)) && i < |tail|
    ensures var o := at + Offset(Chunks(argv, envp, tail), |argv| + |envp| + i);
            o + |tail[i].bytes| <= |mem| && mem[o..o + |tail[i].bytes|] == tail[i].bytes
  {
    var chunks := Chunks(argv, envp, tail);
    var k := |argv| + |envp| + i;
    ReadsChunk(mem, at, chunks, k);
    hide Flatten;
    assert chunks[k] == BlobChunks(tail)[i];
    var o, n := at + Offset(chunks, k), |tail[i].bytes|;
    assert mem[o..o + |chunks[k]|] == chunks[k] && chunks[k][..n] == tail[i].bytes;
    assert mem[o..o + n] == mem[o..o + |chunks[k]|][..n];
  }
}
