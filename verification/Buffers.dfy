/** Writing byte strings into buffers. */
module Buffers {
  import opened Wrappers

  /** Memory with `s` written at `at`. */
  function Overwrite(mem: seq<u8>, at: nat, s: seq<u8>): (r: seq<u8>)
    requires at + |s| <= |mem|
    ensures |r| == |mem|
  {
    mem[..at] + s + mem[at + |s|..]
  }

  lemma OverwriteMore(mem: seq<u8>, at: nat, a: seq<u8>, b: seq<u8>)
    requires at + |a| + |b| <= |mem|
    ensures Overwrite(Overwrite(mem, at, a), at + |a|, b) == Overwrite(mem, at, a + b)
  {
  }

  method CopyBytes(buf: array<u8>, at: nat, s: seq<u8>)
    requires at + |s| <= buf.Length
    modifies buf
    ensures buf[..] == Overwrite(old(buf[..]), at, s)
  {
    for i := 0 to |s|
      invariant forall k :: 0 <= k < buf.Length && !(at <= k < at + i) ==> buf[k] == old(buf[k])
      invariant forall k :: 0 <= k < i ==> buf[at + k] == s[k]
    {
      buf[at + i] := s[i];
    }
    ghost var origin := old(buf[..]);
    assert buf[..at] == origin[..at] && buf[at..at + |s|] == s && buf[at + |s|..] == origin[at + |s|..];
  }

  /** A part of a string found in memory is found at the corresponding place. */
  lemma PartOf(mem: seq<u8>, at: nat, s: seq<u8>, i: nat, j: nat)
    requires at + |s| <= |mem| && mem[at..at + |s|] == s && i <= j <= |s|
    ensures mem[at + i..at + j] == s[i..j]
  {
    forall k | 0 <= k < j - i ensures mem[at + i..at + j][k] == s[i..j][k] {
      assert mem[at..at + |s|][i + k] == s[i + k];
    }
  }

  lemma OverwriteFront(mem: seq<u8>, s: seq<u8>)
    requires |s| <= |mem|
    ensures Overwrite(mem, 0, s) == [] + s + mem[|s|..]
  {
  }
}
