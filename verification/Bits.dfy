/** Bitwise operations on unbounded naturals, and powers of two. */
module Bits {

  predicate Pow2(n: nat) { n == 1 || (n > 0 && n % 2 == 0 && Pow2(n / 2)) }

  function And(a: nat, b: nat): nat {
    if a == 0 || b == 0 then 0 else 2 * And(a / 2, b / 2) + if a % 2 == 1 && b % 2 == 1 then 1 else 0
  }

  function Xor(a: nat, b: nat): nat
    decreases a + b
  {
    if a == 0 then b else if b == 0 then a else 2 * Xor(a / 2, b / 2) + if a % 2 == b % 2 then 0 else 1
  }

  lemma {:induction false} AndSelf(n: nat)
    ensures And(n, n) == n
  {
    if n > 0 {
      AndSelf(n / 2);
      assert n == 2 * (n / 2) + n % 2;
    }
  }

  /** The test as written: no bit in common with the number before. */
  predicate IsPow2(n: int) { n > 0 && And(n, n - 1) == 0 }

  /** It holds of exactly the powers of two; negative numbers and 0 are none. */
  lemma {:induction false} TestIsPow2(n: int)
    ensures IsPow2(n) <==> n > 0 && Pow2(n)
  {
    if n > 1 {
      Predecessor(n);
      if n % 2 == 0 { TestIsPow2(n / 2); } else { AndSelf(n / 2); }
    }
  }

  /** The bits of the number before. */
  lemma Predecessor(n: nat)
    requires n > 1
    ensures And(n, n - 1) == 2 * And(n / 2, if n % 2 == 0 then n / 2 - 1 else n / 2)
  {
    hide Pow2;
    assert (n - 1) / 2 == if n % 2 == 0 then n / 2 - 1 else n / 2;
  }

  /** On numbers below twice a power of two its bit is the top one. */
  lemma {:induction false} TopBit(j: nat, bit: nat)
    requires Pow2(bit) && j < 2 * bit
    ensures And(j, bit) != 0 <==> j >= bit
    ensures Xor(j, bit) == if j >= bit then j - bit else j + bit
  {
    if bit > 1 && j > 0 { TopBit(j / 2, bit / 2); }
  }

  lemma {:induction false} Pow2Double(n: nat)
    requires Pow2(n)
    ensures Pow2(2 * n) && n >= 1
  {
    assert (2 * n) / 2 == n;
  }

  /** A smaller power of two divides a larger one at least twice. */
  lemma {:induction false} Pow2Divides(small: nat, big: nat) returns (q: nat)
    requires Pow2(small) && Pow2(big) && small < big
    ensures q >= 1 && big == q * (2 * small)
  {
    if small == 1 {
      q := big / 2;
    } else {
      q := Pow2Divides(small / 2, big / 2);
      assert q * (2 * small) == 2 * (q * (2 * (small / 2)));
    }
  }
}
