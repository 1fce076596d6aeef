/** Vectors and matrices of reals. */
module Vectors {
  type Vec = seq<real>
  type Mat = seq<seq<real>>

  ghost predicate Shaped(m: Mat, rows: nat, cols: nat)
  {
    |m| == rows && forall r | 0 <= r < rows :: |m[r]| == cols
  }

  /** s[i], and zero outside. */
  function At(s: Vec, i: int): real { if 0 <= i < |s| then s[i] else 0.0 }
}
