/** Bitwise AND on naturals, and the masks that round to a power of two. */
module Bits {
  import opened Wrappers
  import opened Arith

  function And(a: nat, b: nat): (r: nat)
    ensures r <= b
    decreases a
  {
    if a == 0 then 0 else 2 * And(a / 2, b / 2) + (a % 2) * (b % 2)
  }

  predicate IsPowerOfTwo(n: nat) {
    n == 1 || (n > 0 && n % 2 == 0 && IsPowerOfTwo(n / 2))
  }

  /** The low bits of a value are its remainder. */
  lemma {:induction false} LowMask(v: nat, n: nat)
    requires IsPowerOfTwo(n)
    ensures And(v, n - 1) == v % n
    decreases n
  {
    if n == 1 {
      LowMask0(v);
    } else if v == 0 {
      DivModUnique(0, n, 0, 0);
    } else {
      var m := n / 2;
      LowMask(v / 2, m);
      HalveRemainder(v, m);
      assert n == 2 * m && (n - 1) / 2 == m - 1 && (n - 1) % 2 == 1;
    }
  }

  lemma HalveRemainder(v: nat, m: nat)
    requires m > 0
    ensures v % (2 * m) == 2 * (v / 2 % m) + v % 2
  {
    var h := v / 2;
    var q, r := h / m, h % m;
    DivMod(h, m);
    assert q * (2 * m) == 2 * (q * m);
    DivModUnique(v, 2 * m, q, 2 * r + v % 2);
  }

  lemma {:induction false} LowMask0(v: nat)
    ensures And(v, 0) == 0
  {
    if v > 0 { LowMask0(v / 2); }
  }

  /** Halving a complement of odd width complements both the half and the parity. */
  lemma HalveComplement(x: nat, ones: nat)
    requires ones % 2 == 1 && x <= ones
    ensures x / 2 <= ones / 2 && (ones - x) / 2 == ones / 2 - x / 2 && (ones - x) % 2 == 1 - x % 2
  {
  }

  lemma BitAndNot(a: nat, b: nat)
    requires a < 2 && b < 2
    ensures a * (1 - b) == a - a * b
  {
  }

  lemma AndStep(a: nat, b: nat)
    requires a > 0
    ensures And(a, b) == 2 * And(a / 2, b / 2) + (a % 2) * (b % 2)
  {
  }

  lemma HalvePower(ones: nat)
    requires ones > 0 && IsPowerOfTwo(ones + 1)
    ensures ones % 2 == 1 && IsPowerOfTwo(ones / 2 + 1)
  {
    assert (ones + 1) / 2 == ones / 2 + 1;
  }

  /** Masking with a complement of full width removes exactly the masked bits. */
  lemma {:induction false} Complement(v: nat, x: nat, ones: nat)
    requires IsPowerOfTwo(ones + 1) && v <= ones && x <= ones
    ensures And(v, ones - x) == v - And(v, x)
    decreases ones
  {
    if v == 0 {
      assert And(v, ones - x) == 0 == And(v, x);
    } else {
      HalvePower(ones);
      HalveComplement(x, ones);
      AndStep(v, x);
      AndStep(v, ones - x);
      hide IsPowerOfTwo, And;
      Complement(v / 2, x / 2, ones / 2);
      BitAndNot(v % 2, x % 2);
    }
  }

  lemma {:induction false} PowerProduct(a: nat, b: nat)
    requires IsPowerOfTwo(a) && IsPowerOfTwo(b)
    ensures IsPowerOfTwo(a * b)
    decreases a
  {
    if a == 1 {
      assert a * b == b;
    } else {
      PowerProduct(a / 2, b);
      assert a * b == 2 * (a / 2 * b);
    }
  }

  lemma WordIsPower()
    ensures IsPowerOfTwo(U64_MAX + 1)
  {
    assert IsPowerOfTwo(4);
    PowerProduct(4, 4);
    PowerProduct(16, 16);
    PowerProduct(0x100, 0x100);
    PowerProduct(0x1_0000, 0x1_0000);
    PowerProduct(0x1_0000_0000, 0x1_0000_0000);
  }

  // ---- rounding ----

  function AlignDown(value: u64, align: u64): nat
    requires align > 0
  {
    And(value, U64_MAX - (align - 1))
  }

  function AlignUp(value: u64, align: u64): Option<u64>
    requires align > 0
  {
    var low := And(value, align - 1);
    if low == 0 then Some(value)
    else
      var add := align - low;
      if value + add > U64_MAX then None else Some(value + add)
  }

  lemma AlignDownExact(value: u64, align: u64)
    requires IsPowerOfTwo(align)
    ensures AlignDown(value, align) == value / align * align
  {
    WordIsPower();
    Complement(value, align - 1, U64_MAX);
    LowMask(value, align);
    DivMod(value, align);
  }

  /** The least multiple at or above `value`, or nothing when it is not representable. */
  lemma AlignUpExact(value: u64, align: u64)
    requires IsPowerOfTwo(align)
    ensures var up := (value + align - 1) / align * align;
            AlignUp(value, align) == if up <= U64_MAX then Some(up) else None
  {
    LowMask(value, align);
    RoundUp(value, align);
  }

  lemma RoundUp(value: nat, n: nat)
    requires n > 0
    ensures (value + n - 1) / n * n == if value % n == 0 then value else value + (n - value % n)
  {
    var q, r := value / n, value % n;
    DivMod(value, n);
    Distribute(q, 1, n);
    if r == 0 { DivModUnique(value + n - 1, n, q, n - 1); } else { DivModUnique(value + n - 1, n, q + 1, r - 1); }
  }
}
