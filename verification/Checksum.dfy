/** The Internet checksum of RFC 1071: carry folding is arithmetic modulo 65535. */
module Checksums {
  import opened Wrappers

  function Word(hi: u8, lo: u8): nat { 256 * hi + lo }

  /** The big-endian 16-bit words of the data, a last odd byte padded with zero. */
  function WordSum(data: seq<u8>): nat {
    if |data| == 0 then 0
    else if |data| == 1 then Word(data[0], 0)
    else Word(data[0], data[1]) + WordSum(data[2..])
  }

  /** A running sum with every carry folded back in. */
  function Fold(sum: nat): (r: nat)
    ensures r <= U16_MAX && (r == 0 <==> sum == 0)
  {
    if sum == 0 then 0 else 1 + (sum - 1) % U16_MAX
  }

  /** The complement as sent, with zero sent as all ones. */
  function WireValue(sum: nat): u16 { if Fold(sum) == U16_MAX then U16_MAX else U16_MAX - Fold(sum) }

  function Wrap(n: nat): u32 { n % (U32_MAX + 1) }

  /** Adds the words of `data` to a 32-bit sum, which wraps only past 2^32. */
  method AddBytes(sum: u32, data: seq<u8>) returns (r: u32)
    ensures r == Wrap(sum + WordSum(data))
    ensures sum + WordSum(data) <= U32_MAX ==> r == sum + WordSum(data)
  {
    r := sum;
    var i := 0;
    while i + 1 < |data|
      invariant i <= |data|
      invariant Wrap(r + WordSum(data[i..])) == Wrap(sum + WordSum(data))
    {
      assert data[i..][2..] == data[i + 2..];
      WrapAdd(r + Word(data[i], data[i + 1]), WordSum(data[i + 2..]));
      r := Wrap(r + Word(data[i], data[i + 1]));
      i := i + 2;
    }
    if i < |data| {
      r := Wrap(r + Word(data[i], 0));
    }
  }

  lemma WrapAdd(a: nat, b: nat)
    ensures Wrap(Wrap(a) + b) == Wrap(a + b)
  {
    var q := a / (U32_MAX + 1);
    assert a == (U32_MAX + 1) * q + Wrap(a);
  }

  /** Folds carries and complements. */
  method Finish(sum: u32) returns (c: u16)
    ensures c == U16_MAX - Fold(sum)
  {
    var folded: nat := sum;
    while folded > U16_MAX
      invariant Fold(folded) == Fold(sum)
    {
      FoldOnce(folded);
      folded := folded % 0x1_0000 + folded / 0x1_0000;
    }
    c := U16_MAX - folded;
  }

  lemma FoldOnce(sum: nat)
    ensures Fold(sum % 0x1_0000 + sum / 0x1_0000) == Fold(sum)
  {
    var k := sum / 0x1_0000;
    var next := sum % 0x1_0000 + k;
    if sum > 0 {
      assert sum - 1 == (next - 1) + U16_MAX * k;
      ModShift(next - 1, k);
    }
  }

  lemma ModShift(a: nat, k: nat)
    ensures (a + U16_MAX * k) % U16_MAX == a % U16_MAX
  {
    var q := a / U16_MAX;
    assert a + U16_MAX * k == U16_MAX * (q + k) + a % U16_MAX;
  }

  /** Splitting after an even number of bytes splits the sum. */
  lemma {:induction false} WordSumAppend(a: seq<u8>, b: seq<u8>)
    requires |a| % 2 == 0
    ensures WordSum(a + b) == WordSum(a) + WordSum(b)
  {
    if a == [] {
      assert a + b == b;
    } else {
      WordSumAppend(a[2..], b);
      assert (a + b)[2..] == a[2..] + b;
    }
  }

  lemma {:induction false} WordSumBound(data: seq<u8>)
    ensures WordSum(data) <= U16_MAX * ((|data| + 1) / 2)
  {
    if |data| > 1 { WordSumBound(data[2..]); }
  }

  /** Adding its wire complement to any non-zero sum makes it fold to all ones: what a sender
      computes always passes the receiver's test. */
  lemma ComplementChecks(sum: nat)
    requires sum > 0
    ensures WireValue(sum) > 0 && Fold(sum + WireValue(sum)) == U16_MAX
  {
    var c := U16_MAX - Fold(sum);
    var q := (sum - 1) / U16_MAX;
    assert sum - 1 == U16_MAX * q + (sum - 1) % U16_MAX;
    if c == 0 {
      assert sum + U16_MAX - 1 == (U16_MAX - 1) + U16_MAX * (q + 1);
      ModShift(U16_MAX - 1, q + 1);
    } else {
      assert sum + c - 1 == (U16_MAX - 1) + U16_MAX * q;
      ModShift(U16_MAX - 1, q);
    }
  }

  /** A positive multiple of 65535, one's-complement zero. */
  predicate AllOnes(sum: nat) { sum > 0 && sum % U16_MAX == 0 }

  lemma FoldIsOnesIff(sum: nat)
    ensures Fold(sum) == U16_MAX <==> AllOnes(sum)
  {
    if sum > 0 { PredecessorMod(sum); }
  }

  /** Two sums fold alike exactly when they agree modulo 65535 and are both zero or neither. */
  lemma FoldEqualIff(a: nat, b: nat)
    ensures Fold(a) == Fold(b) <==> a % U16_MAX == b % U16_MAX && (a == 0 <==> b == 0)
  {
    if a > 0 && b > 0 {
      PredecessorMod(a);
      PredecessorMod(b);
    }
  }

  lemma PredecessorMod(a: nat)
    requires a > 0
    ensures Fold(a) == if a % U16_MAX == 0 then U16_MAX else a % U16_MAX
  {
    var q, r := a / U16_MAX, a % U16_MAX;
    assert a == U16_MAX * q + r;
    if r == 0 {
      assert a - 1 == (U16_MAX - 1) + U16_MAX * (q - 1);
      ModShift(U16_MAX - 1, q - 1);
    } else {
      assert a - 1 == (r - 1) + U16_MAX * q;
      ModShift(r - 1, q);
    }
  }
}
