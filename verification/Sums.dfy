/** Finite sums of reals, the arithmetic behind every matrix product in this project. */
module Sums {

  /** f(0) + ... + f(n-1) */
  function Sum(n: nat, f: int -> real): real
  {
    if n == 0 then 0.0 else Sum(n - 1, f) + f(n - 1)
  }

  lemma {:induction false} Congruent(n: nat, f: int -> real, g: int -> real)
    requires forall i | 0 <= i < n :: f(i) == g(i)
    ensures Sum(n, f) == Sum(n, g)
  {
    if n > 0 { Congruent(n - 1, f, g); }
  }

  lemma {:induction false} Zero(n: nat, f: int -> real)
    requires forall i | 0 <= i < n :: f(i) == 0.0
    ensures Sum(n, f) == 0.0
  {
    if n > 0 { Zero(n - 1, f); }
  }

  /** Only one term is non-zero. */
  lemma {:induction false} Single(n: nat, k: int, f: int -> real)
    requires 0 <= k < n
    requires forall i | 0 <= i < n && i != k :: f(i) == 0.0
    ensures Sum(n, f) == f(k)
  {
    if k == n - 1 { Zero(n - 1, f); } else { Single(n - 1, k, f); }
  }

  lemma {:induction false} Split(a: nat, b: nat, f: int -> real)
    ensures Sum(a + b, f) == Sum(a, f) + Sum(b, i => f(a + i))
  {
    if b > 0 {
      Split(a, b - 1, f);
      assert a + b - 1 == a + (b - 1);
    }
  }

  /** Terms past the first `a` vanish, so the sum may stop there. */
  lemma {:induction false} Truncate(a: nat, n: nat, f: int -> real)
    requires a <= n
    requires forall i | a <= i < n :: f(i) == 0.0
    ensures Sum(n, f) == Sum(a, f)
  {
    Split(a, n - a, f);
    assert a + (n - a) == n;
    Zero(n - a, i => f(a + i));
  }

  lemma {:induction false} Scale(n: nat, c: real, f: int -> real, g: int -> real)
    requires forall i | 0 <= i < n :: g(i) == c * f(i)
    ensures Sum(n, g) == c * Sum(n, f)
  {
    if n > 0 { Scale(n - 1, c, f, g); }
  }

  lemma {:induction false} Add(n: nat, f: int -> real, g: int -> real, h: int -> real)
    requires forall i | 0 <= i < n :: h(i) == f(i) + g(i)
    ensures Sum(n, h) == Sum(n, f) + Sum(n, g)
  {
    if n > 0 { Add(n - 1, f, g, h); }
  }

  /** A sum over n * m terms is n consecutive blocks of m terms. */
  lemma {:induction false} Blocks(n: nat, m: nat, f: int -> real)
    ensures Sum(n * m, f) == Sum(n, b => Sum(m, j => f(b * m + j)))
  {
    var g := (b: int) => Sum(m, j => f(b * m + j));
    if n > 0 {
      Blocks(n - 1, m, f);
      assert n * m == (n - 1) * m + m;
      Split((n - 1) * m, m, f);
      Congruent(m, i => f((n - 1) * m + i), j => f((n - 1) * m + j));
      Congruent(n - 1, g, b => Sum(m, j => f(b * m + j)));
      assert Sum(n, g) == Sum(n - 1, g) + g(n - 1);
    } else {
      assert n * m == 0;
    }
  }
}
