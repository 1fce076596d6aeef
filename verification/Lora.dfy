/**
 Multi-adapter LoRA by one masked matrix product.

 All adapters' factors are flattened side by side, one product is taken for every token, and a
 mask row keeps the columns of the token's own adapter. The claim is that this adds exactly that
 adapter's low-rank update, and that no other mask row would.
 */
module Lora {
  import opened Sums
  import opened Arith
  import opened Vectors

  /** A stacked LoRA weight [adapters, layers, rows, cols]; `at` is its indexing. */
  datatype Stacked = Stacked(adapters: nat, layers: nat, rows: nat, cols: nat, at: (int, int, int, int) -> real)

  function Elem(m: Mat, r: int, c: int): real
  {
    if 0 <= r < |m| && 0 <= c < |m[r]| then m[r][c] else 0.0
  }

  /******* The flattened factors *******/

  /** lora_a[:, 0].reshape(-1, cols)[j, i]: row j is rank j % R of adapter j / R. */
  function FlatA(a: Stacked, j: int, i: int): real
  {
    if a.rows == 0 then 0.0 else a.at(j / a.rows, 0, j % a.rows, i)
  }

  /** lora_b[:, 0].transpose(1, 2).reshape(-1, rows)[j, o]. */
  function FlatB(b: Stacked, j: int, o: int): real
  {
    if b.cols == 0 then 0.0 else b.at(j / b.cols, 0, o, j % b.cols)
  }

  /** Entry (t, j) of x @ a_w. */
  function Shrunk(x: Mat, a: Stacked, t: int, j: int): real
  {
    Sum(a.cols, i => Elem(x, t, i) * FlatA(a, j, i))
  }

  /** Entry (t, o) of ((x @ a_w) * mask) @ b_w. */
  function Masked(x: Mat, a: Stacked, b: Stacked, mask: Mat, t: int, o: int): real
  {
    Sum(a.adapters * a.rows, j => Shrunk(x, a, t, j) * Elem(mask, t, j) * FlatB(b, j, o))
  }

  /** Entry (t, o) of (x.repeat(1, adapters) * mask) @ b_w. */
  function MaskedEmbedding(x: Mat, b: Stacked, mask: Mat, t: int, o: int): real
  {
    Sum(b.adapters * b.cols, j => Elem(x, t, if b.cols == 0 then 0 else j % b.cols) * Elem(mask, t, j) * FlatB(b, j, o))
  }

  /******* What is promised: the token's own adapter *******/

  /** x[t] through rank r of adapter d. */
  function AdapterShrunk(x: Mat, a: Stacked, t: int, d: int, r: int): real
  {
    Sum(a.cols, i => Elem(x, t, i) * a.at(d, 0, r, i))
  }

  /** (x[t] @ A[d]^T @ B[d]^T)[o]. */
  function Adapter(x: Mat, a: Stacked, b: Stacked, t: int, d: int, o: int): real
  {
    Sum(a.rows, r => AdapterShrunk(x, a, t, d, r) * b.at(d, 0, o, r))
  }

  function AdapterEmbedding(x: Mat, b: Stacked, t: int, d: int, o: int): real
  {
    Sum(b.cols, r => Elem(x, t, r) * b.at(d, 0, o, r))
  }

  /** The mask row of a token using adapter d: ones on its block of `rank` columns. */
  ghost predicate Selects(mask: Mat, t: int, adapters: nat, rank: nat, d: int)
  {
    forall j | 0 <= j < adapters * rank && 0 < rank :: Elem(mask, t, j) == if j / rank == d then 1.0 else 0.0
  }

  ghost predicate SelectsNothing(mask: Mat, t: int, adapters: nat, rank: nat)
  {
    forall j | 0 <= j < adapters * rank :: Elem(mask, t, j) == 0.0
  }

  ghost predicate Paired(a: Stacked, b: Stacked)
  {
    a.adapters == b.adapters && a.rows == b.cols
  }

  /** One rank-wide block of a masked sum is the whole sum. */
  lemma BlockOfSum(adapters: nat, rank: nat, d: nat, f: int -> real, g: int -> real)
    requires d < adapters
    requires forall j | 0 <= j < adapters * rank && 0 < rank && j / rank != d :: f(j) == 0.0
    requires forall r | 0 <= r < rank :: f(d * rank + r) == g(r)
    ensures Sum(adapters * rank, f) == Sum(rank, g)
  {
    Blocks(adapters, rank, f);
    var block := (e: int) => Sum(rank, r => f(e * rank + r));
    forall e | 0 <= e < adapters && e != d ensures block(e) == 0.0 {
      var inner := (r: int) => f(e * rank + r);
      forall r | 0 <= r < rank ensures inner(r) == 0.0 {
        IndexUnique(e, rank, r);
        IndexBound(e, adapters, rank, r);
      }
      Zero(rank, inner);
    }
    Single(adapters, d, block);
    Congruent(rank, r => f(d * rank + r), g);
  }

  /** The masked product is the adapter's own product. */
  lemma MaskedIsAdapter(x: Mat, a: Stacked, b: Stacked, mask: Mat, t: int, d: nat, o: int)
    requires Paired(a, b) && d < a.adapters && Selects(mask, t, a.adapters, a.rows, d)
    ensures Masked(x, a, b, mask, t, o) == Adapter(x, a, b, t, d, o)
  {
    var f := (j: int) => Shrunk(x, a, t, j) * Elem(mask, t, j) * FlatB(b, j, o);
    var g := (r: int) => AdapterShrunk(x, a, t, d, r) * b.at(d, 0, o, r);
    forall r | 0 <= r < a.rows ensures f(d * a.rows + r) == g(r) {
      IndexUnique(d, a.rows, r);
      IndexBound(d, a.adapters, a.rows, r);
      Congruent(a.cols, i => Elem(x, t, i) * FlatA(a, d * a.rows + r, i), i => Elem(x, t, i) * a.at(d, 0, r, i));
    }
    BlockOfSum(a.adapters, a.rows, d, f, g);
  }

  lemma MaskedIsNothing(x: Mat, a: Stacked, b: Stacked, mask: Mat, t: int, o: int)
    requires SelectsNothing(mask, t, a.adapters, a.rows)
    ensures Masked(x, a, b, mask, t, o) == 0.0
  {
    Zero(a.adapters * a.rows, j => Shrunk(x, a, t, j) * Elem(mask, t, j) * FlatB(b, j, o));
  }

  lemma MaskedEmbeddingIsAdapter(x: Mat, b: Stacked, mask: Mat, t: int, d: nat, o: int)
    requires d < b.adapters && Selects(mask, t, b.adapters, b.cols, d)
    ensures MaskedEmbedding(x, b, mask, t, o) == AdapterEmbedding(x, b, t, d, o)
  {
    var f := (j: int) => Elem(x, t, if b.cols == 0 then 0 else j % b.cols) * Elem(mask, t, j) * FlatB(b, j, o);
    var g := (r: int) => Elem(x, t, r) * b.at(d, 0, o, r);
    forall r | 0 <= r < b.cols ensures f(d * b.cols + r) == g(r) {
      IndexUnique(d, b.cols, r);
      IndexBound(d, b.adapters, b.cols, r);
    }
    BlockOfSum(b.adapters, b.cols, d, f, g);
  }

  /******* The mask row is forced *******/

  ghost predicate AlwaysAdapter(mask: Mat, t: nat, adapters: nat, rank: nat, d: nat)
  {
    forall x: Mat, a: Stacked, b: Stacked, o: int |
      Paired(a, b) && a.adapters == adapters && a.rows == rank ::
      Masked(x, a, b, mask, t, o) == Adapter(x, a, b, t, d, o)
  }

  /** Weights that expose one mask column: one input, one output, only rank `r0` of adapter `d0` non-zero. */
  function ProbeA(adapters: nat, rank: nat, d0: nat, r0: nat): Stacked
  {
    Stacked(adapters, 1, rank, 1, (d, l, r, i) => if d == d0 && r == r0 then 1.0 else 0.0)
  }

  function ProbeB(adapters: nat, rank: nat): Stacked
  {
    Stacked(adapters, 1, 1, rank, (d, l, o, r) => 1.0)
  }

  function Ones(rows: nat): Mat { seq(rows, _ => [1.0]) }

  lemma ProbeReadsMask(mask: Mat, t: nat, adapters: nat, rank: nat, d0: nat, r0: nat)
    requires d0 < adapters && r0 < rank
    ensures Masked(Ones(t + 1), ProbeA(adapters, rank, d0, r0), ProbeB(adapters, rank), mask, t, 0)
            == Elem(mask, t, d0 * rank + r0)
  {
    var x, a, b := Ones(t + 1), ProbeA(adapters, rank, d0, r0), ProbeB(adapters, rank);
    var f := (k: int) => Shrunk(x, a, t, k) * Elem(mask, t, k) * FlatB(b, k, 0);
    var j := d0 * rank + r0;
    IndexBound(d0, adapters, rank, r0);
    IndexUnique(d0, rank, r0);
    forall k | 0 <= k < adapters * rank ensures f(k) == if k == j then Elem(mask, t, k) else 0.0 {
      IndexSplit(k, adapters, rank);
      Single(1, 0, i => Elem(x, t, i) * FlatA(a, k, i));
    }
    Single(adapters * rank, j, f);
  }

  lemma ProbeReadsAdapter(t: nat, adapters: nat, rank: nat, d0: nat, r0: nat, d: nat)
    requires d0 < adapters && r0 < rank
    ensures Adapter(Ones(t + 1), ProbeA(adapters, rank, d0, r0), ProbeB(adapters, rank), t, d, 0)
            == if d0 == d then 1.0 else 0.0
  {
    var x, a, b := Ones(t + 1), ProbeA(adapters, rank, d0, r0), ProbeB(adapters, rank);
    var g := (r: int) => AdapterShrunk(x, a, t, d, r) * b.at(d, 0, 0, r);
    forall r | 0 <= r < rank ensures g(r) == if d == d0 && r == r0 then 1.0 else 0.0 {
      var terms := (i: int) => Elem(x, t, i) * a.at(d, 0, r, i);
      Single(1, 0, terms);
      Congruent(1, terms, i => Elem(x, t, i) * a.at(d, 0, r, i));
      assert Elem(x, t, 0) == 1.0;
      assert a.at(d, 0, r, 0) == if d == d0 && r == r0 then 1.0 else 0.0;
      assert terms(0) == if d == d0 && r == r0 then 1.0 else 0.0;
      assert AdapterShrunk(x, a, t, d, r) == terms(0);
      assert g(r) == AdapterShrunk(x, a, t, d, r) * 1.0;
    }
    if d == d0 { Single(rank, r0, g); } else { Zero(rank, g); }
  }

  /** Exactly the block mask makes every masked product the adapter's product. */
  lemma MaskIsForced(mask: Mat, t: nat, adapters: nat, rank: nat, d: nat)
    requires d < adapters
    ensures AlwaysAdapter(mask, t, adapters, rank, d) <==> Selects(mask, t, adapters, rank, d)
  {
    if Selects(mask, t, adapters, rank, d) {
      forall x: Mat, a: Stacked, b: Stacked, o: int | Paired(a, b) && a.adapters == adapters && a.rows == rank
        ensures Masked(x, a, b, mask, t, o) == Adapter(x, a, b, t, d, o)
      {
        MaskedIsAdapter(x, a, b, mask, t, d, o);
      }
    }
    if AlwaysAdapter(mask, t, adapters, rank, d) {
      forall j | 0 <= j < adapters * rank && 0 < rank
        ensures Elem(mask, t, j) == if j / rank == d then 1.0 else 0.0
      {
        IndexSplit(j, adapters, rank);
        var d0, r0 := j / rank, j % rank;
        ProbeReadsMask(mask, t, adapters, rank, d0, r0);
        ProbeReadsAdapter(t, adapters, rank, d0, r0, d);
        var x, a, b := Ones(t + 1), ProbeA(adapters, rank, d0, r0), ProbeB(adapters, rank);
        assert Masked(x, a, b, mask, t, 0) == Adapter(x, a, b, t, d, 0);
      }
    }
  }

  /******* In-place updates *******/

  /** The first column of slice s. */
  function Offset(slices: seq<nat>, s: nat): nat
    requires s <= |slices|
  {
    if s == 0 then 0 else Offset(slices, s - 1) + slices[s - 1]
  }

  lemma {:induction false} OffsetMonotone(slices: seq<nat>, s: nat, u: nat)
    requires s <= u <= |slices|
    ensures Offset(slices, s) <= Offset(slices, u)
  {
    if s < u { OffsetMonotone(slices, s, u - 1); }
  }

  /** y[t, c] after the first `done` slices have been added to a buffer that held `was`. */
  ghost function Updated(was: real, x: Mat, a: seq<Stacked>, b: seq<Stacked>, scale: real, slices: seq<nat>, mask: Mat,
                         done: nat, t: int, c: int): real
    requires |a| == |b| == |slices| && done <= |slices|
  {
    if done == 0 then was
    else
      var before := Updated(was, x, a, b, scale, slices, mask, done - 1, t, c);
      var start := Offset(slices, done - 1);
      if start <= c < start + slices[done - 1]
        then before + Masked(x, a[done - 1], b[done - 1], mask, t, c - start) * scale
      else before
  }

  /** add_lora_linear. */
  method AddLoraLinear(y: array2<real>, x: Mat, a: seq<Stacked>, b: seq<Stacked>, scale: real, slices: seq<nat>,
                       mask: Mat)
    requires |a| == |b| == |slices|
    requires Width(slices) <= y.Length1
    modifies y
    ensures forall t, c | 0 <= t < y.Length0 && 0 <= c < y.Length1 ::
              y[t, c] == Updated(old(y[t, c]), x, a, b, scale, slices, mask, |slices|, t, c)
  {
    hide Masked;
    assert slices[..|slices|] == slices;
    OffsetIsWidth(slices, |slices|);
    var sliceOffset := 0;
    for s := 0 to |slices|
      invariant sliceOffset == Offset(slices, s)
      invariant forall t, c | 0 <= t < y.Length0 && 0 <= c < y.Length1 ::
                  y[t, c] == Updated(old(y[t, c]), x, a, b, scale, slices, mask, s, t, c)
    {
      OffsetMonotone(slices, s + 1, |slices|);
      forall t, c | 0 <= t < y.Length0 && sliceOffset <= c < sliceOffset + slices[s] {
        y[t, c] := y[t, c] + Masked(x, a[s], b[s], mask, t, c - sliceOffset) * scale;
      }
      sliceOffset := sliceOffset + slices[s];
    }
  }

  /** Slices do not overlap: a column in slice s gets that slice's term once, all others nothing. */
  lemma {:induction false} UpdatedColumn(was: real, x: Mat, a: seq<Stacked>, b: seq<Stacked>, scale: real,
                                         slices: seq<nat>, mask: Mat,
                                         done: nat, t: int, c: int, s: nat)
    requires |a| == |b| == |slices| && done <= |slices| && s < |slices|
    requires Offset(slices, s) <= c < Offset(slices, s + 1)
    ensures Updated(was, x, a, b, scale, slices, mask, done, t, c)
            == if s < done then was + Masked(x, a[s], b[s], mask, t, c - Offset(slices, s)) * scale else was
  {
    if done > 0 {
      UpdatedColumn(was, x, a, b, scale, slices, mask, done - 1, t, c, s);
      if done - 1 < s { OffsetMonotone(slices, done, s); }
      if s < done - 1 { OffsetMonotone(slices, s + 1, done - 1); }
    }
  }

  lemma {:induction false} UpdatedOutside(was: real, x: Mat, a: seq<Stacked>, b: seq<Stacked>, scale: real,
                                          slices: seq<nat>, mask: Mat,
                                          done: nat, t: int, c: int)
    requires |a| == |b| == |slices| && done <= |slices| && Width(slices) <= c
    ensures Updated(was, x, a, b, scale, slices, mask, done, t, c) == was
  {
    assert slices[..|slices|] == slices;
    OffsetIsWidth(slices, |slices|);
    if done > 0 {
      UpdatedOutside(was, x, a, b, scale, slices, mask, done - 1, t, c);
      OffsetMonotone(slices, done, |slices|);
    }
  }

  /** The columns these slices take up. */
  function Width(slices: seq<nat>): nat { if slices == [] then 0 else slices[0] + Width(slices[1..]) }

  lemma {:induction false} WidthOfLast(slices: seq<nat>, n: nat)
    ensures Width(slices + [n]) == Width(slices) + n
  {
    if slices == [] {
      assert [n][1..] == [];
    } else {
      assert (slices + [n])[0] == slices[0] && (slices + [n])[1..] == slices[1..] + [n];
      WidthOfLast(slices[1..], n);
    }
  }

  lemma {:induction false} OffsetIsWidth(slices: seq<nat>, s: nat)
    requires s <= |slices|
    ensures Offset(slices, s) == Width(slices[..s])
  {
    if s > 0 {
      OffsetIsWidth(slices, s - 1);
      assert slices[..s] == slices[..s - 1] + [slices[s - 1]];
      WidthOfLast(slices[..s - 1], slices[s - 1]);
    }
  }

  /** Main result: column o of slice s gains scale times the token's own adapter's product. */
  lemma LinearAddsAdapter(was: real, x: Mat, a: seq<Stacked>, b: seq<Stacked>, scale: real, slices: seq<nat>, mask: Mat,
                          t: int, s: nat, o: nat, d: nat)
    requires |a| == |b| == |slices| && s < |slices| && o < slices[s]
    requires Paired(a[s], b[s]) && d < a[s].adapters && Selects(mask, t, a[s].adapters, a[s].rows, d)
    ensures Updated(was, x, a, b, scale, slices, mask, |slices|, t, Width(slices[..s]) + o)
            == was + Adapter(x, a[s], b[s], t, d, o) * scale
  {
    OffsetIsWidth(slices, s);
    UpdatedColumn(was, x, a, b, scale, slices, mask, |slices|, t, Offset(slices, s) + o, s);
    MaskedIsAdapter(x, a[s], b[s], mask, t, d, o);
  }

  /** A token with an all-zero mask row keeps its output. */
  lemma LinearAddsNothing(was: real, x: Mat, a: seq<Stacked>, b: seq<Stacked>, scale: real, slices: seq<nat>, mask: Mat,
                          t: int, s: nat, o: nat)
    requires |a| == |b| == |slices| && s < |slices| && o < slices[s]
    requires SelectsNothing(mask, t, a[s].adapters, a[s].rows)
    ensures Updated(was, x, a, b, scale, slices, mask, |slices|, t, Width(slices[..s]) + o) == was
  {
    OffsetIsWidth(slices, s);
    UpdatedColumn(was, x, a, b, scale, slices, mask, |slices|, t, Offset(slices, s) + o, s);
    MaskedIsNothing(x, a[s], b[s], mask, t, o);
  }

  /** add_lora_embedding: every column of y, no scale. */
  method AddLoraEmbedding(y: array2<real>, x: Mat, b: Stacked, mask: Mat)
    requires b.rows == y.Length1
    modifies y
    ensures forall t, c | 0 <= t < y.Length0 && 0 <= c < y.Length1 ::
              y[t, c] == old(y[t, c]) + MaskedEmbedding(x, b, mask, t, c)
    ensures forall t, c, d | 0 <= t < y.Length0 && 0 <= c < y.Length1 && 0 <= d < b.adapters
                             && Selects(mask, t, b.adapters, b.cols, d) ::
              y[t, c] == old(y[t, c]) + AdapterEmbedding(x, b, t, d, c)
  {
    forall t, c | 0 <= t < y.Length0 && 0 <= c < y.Length1 {
      y[t, c] := y[t, c] + MaskedEmbedding(x, b, mask, t, c);
    }
    forall t, c, d | 0 <= t < y.Length0 && 0 <= c < y.Length1 && 0 <= d < b.adapters
      && Selects(mask, t, b.adapters, b.cols, d)
      ensures MaskedEmbedding(x, b, mask, t, c) == AdapterEmbedding(x, b, t, d, c)
    {
      MaskedEmbeddingIsAdapter(x, b, mask, t, d, c);
    }
  }

  /** add_lora_logits: the mask is cut to the rows of x, and only the factor's columns are written. */
  method AddLoraLogits(y: array2<real>, x: Mat, a: Stacked, b: Stacked, scale: real, mask: Mat)
    requires |x| == y.Length0 <= |mask| && b.rows <= y.Length1 && Paired(a, b)
    modifies y
    ensures forall t, c, d | 0 <= t < y.Length0 && 0 <= c < b.rows && 0 <= d < a.adapters
                             && Selects(mask, t, a.adapters, a.rows, d) ::
              y[t, c] == old(y[t, c]) + Adapter(x, a, b, t, d, c) * scale
    ensures forall t, c | 0 <= t < y.Length0 && b.rows <= c < y.Length1 :: y[t, c] == old(y[t, c])
    ensures forall t, c | 0 <= t < y.Length0 && 0 <= c < b.rows ::
            y[t, c] == old(y[t, c]) + Masked(x, a, b, mask[..|x|], t, c) * scale
  {
    hide Masked, Adapter;
    var rows := mask[..|x|];
    forall t, c | 0 <= t < y.Length0 && 0 <= c < b.rows {
      y[t, c] := y[t, c] + Masked(x, a, b, rows, t, c) * scale;
    }
    forall t, c, d | 0 <= t < y.Length0 && 0 <= c < b.rows && 0 <= d < a.adapters
      && Selects(mask, t, a.adapters, a.rows, d)
      ensures Masked(x, a, b, rows, t, c) == Adapter(x, a, b, t, d, c)
    {
      forall j | 0 <= j < a.adapters * a.rows && 0 < a.rows ensures Elem(rows, t, j) == Elem(mask, t, j) { }
      MaskedIsAdapter(x, a, b, rows, t, d, c);
    }
  }
}
