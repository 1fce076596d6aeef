/** The few facts about products and quotients that row-major indexing needs. */
module Arith {

  lemma MulMonotone(a: int, b: int, c: nat)
    ensures a <= b ==> a * c <= b * c
    ensures a < b && 0 < c ==> a * c < b * c
  {
  }

  lemma MulAssociate(r: int, s: int, i: int, n: int)
    ensures (r * s + i) * n == r * (s * n) + i * n
  {
  }

  lemma MulCancel(c: nat, a: int, b: int)
    requires 0 < c && c * a == c * b
    ensures a == b
  {
    MulMonotone(a, b, c);
    MulMonotone(b, a, c);
  }

  /** Row-major index (h, j) lies in the array. */
  lemma IndexBound(h: nat, rows: nat, width: nat, j: nat)
    requires h < rows && j < width
    ensures 0 <= h * width + j < rows * width
  {
    MulMonotone(h + 1, rows, width);
    assert (h + 1) * width == h * width + width;
  }

  /** Every position is some row-major index (h, j). */
  lemma IndexSplit(r: nat, rows: nat, width: nat)
    requires r < rows * width
    ensures 0 < width && r / width < rows && r == (r / width) * width + r % width
  {
    assert 0 < width;
    MulMonotone(rows, r / width, width);
  }

  /** Quotient and remainder recover a row-major index. */
  lemma {:induction false} IndexUnique(h: nat, width: nat, j: nat)
    requires j < width
    ensures (h * width + j) / width == h && (h * width + j) % width == j
  {
    var q, r := (h * width + j) / width, (h * width + j) % width;
    assert q * width + r == h * width + j;
    MulMonotone(q + 1, h, width);
    MulMonotone(h + 1, q, width);
    assert (q + 1) * width == q * width + width && (h + 1) * width == h * width + width;
  }
}
