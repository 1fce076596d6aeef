/** The two bit tricks around the gated-norm kernel: rounding up to a power of two, and testing for one. */
module PowersOfTwo {

  function Pow2(k: nat): nat { if k == 0 then 1 else 2 * Pow2(k - 1) }

  ghost predicate IsPow2(n: nat) { exists k: nat :: n == Pow2(k) }

  /** int.bit_length */
  function BitLength(n: nat): nat { if n == 0 then 0 else 1 + BitLength(n / 2) }

  /** a & b */
  function BitAnd(a: nat, b: nat): nat
  {
    if a == 0 || b == 0 then 0 else (a % 2) * (b % 2) + 2 * BitAnd(a / 2, b / 2)
  }

  function NextPowerOfTwo(n: int): nat { if n <= 1 then 1 else Pow2(BitLength(n - 1)) }

  lemma {:induction false} Pow2Monotone(j: nat, k: nat)
    ensures j <= k ==> Pow2(j) <= Pow2(k)
    ensures Pow2(j) < Pow2(k) ==> j < k
  {
    if 0 < j && 0 < k {
      Pow2Monotone(j - 1, k - 1);
    } else if 0 < k {
      Pow2Monotone(j, k - 1);
    } else if 0 < j {
      Pow2Monotone(j - 1, k);
    }
  }

  lemma {:induction false} BitLengthBounds(n: nat)
    ensures n < Pow2(BitLength(n))
    ensures n > 0 ==> Pow2(BitLength(n) - 1) <= n
  {
    if n > 0 {
      BitLengthBounds(n / 2);
    }
  }

  /** The least power of two that is at least n. */
  lemma NextPowerOfTwoIsLeast(n: int)
    ensures IsPow2(NextPowerOfTwo(n)) && n <= NextPowerOfTwo(n)
    ensures forall p: nat | IsPow2(p) && n <= p :: NextPowerOfTwo(n) <= p
  {
    assert 1 == Pow2(0);
    if n > 1 { BitLengthBounds(n - 1); }
    forall p: nat | IsPow2(p) && n <= p ensures NextPowerOfTwo(n) <= p {
      var k: nat :| p == Pow2(k);
      if n > 1 {
        Pow2Monotone(BitLength(n - 1) - 1, k);
        Pow2Monotone(BitLength(n - 1), k);
      } else {
        Pow2Monotone(0, k);
      }
    }
  }

  lemma {:induction false} AndSelf(n: nat)
    ensures BitAnd(n, n) == n
  {
    if n > 0 { AndSelf(n / 2); }
  }

  lemma OddPower(k: nat)
    ensures Pow2(k) % 2 == 1 ==> Pow2(k) == 1
  {
  }

  /** r & (r - 1) is zero exactly for powers of two. */
  lemma {:induction false} PowerOfTwoTest(r: nat)
    requires r > 0
    ensures BitAnd(r, r - 1) == 0 <==> IsPow2(r)
  {
    if r == 1 {
      assert 1 == Pow2(0);
    } else if r % 2 == 0 {
      PowerOfTwoTest(r / 2);
      assert (r - 1) / 2 == r / 2 - 1;
      if IsPow2(r) {
        var k: nat :| r == Pow2(k);
        assert r / 2 == Pow2(k - 1);
      }
      if IsPow2(r / 2) {
        var k: nat :| r / 2 == Pow2(k);
        assert r == Pow2(k + 1);
      }
    } else {
      AndSelf(r / 2);
      assert (r - 1) / 2 == r / 2;
      forall k: nat ensures r != Pow2(k) { OddPower(k); }
    }
  }
}
