/**
 The fused gated RMSNorm kernel: one program per row, BLOCK_H lanes wide, lanes past H masked off.

 Memory is flat and addressed with row strides, as the kernel sees it. Arithmetic is exact;
 sigmoid and v -> 1 / sqrt(v + eps) stand for any functions.
 */
module GatedNorm {
  import opened Sums
  import opened Arith
  import opened Vectors
  import opened Options
  import opened PowersOfTwo

  datatype Weights = Weights(h: nat, r: nat, norm: seq<real>, down: seq<real>, up: seq<real>,
                             sigmoid: real -> real, rstd: real -> real)

  /** w_norm [H], w_down [R, H] and w_up [H, R], each contiguous. */
  predicate Shaped(w: Weights)
  {
    0 < w.h && |w.norm| == w.h && |w.down| == w.r * w.h && |w.up| == w.h * w.r
  }

  /******* The plain formula, over exactly H lanes *******/

  function Squares(x: int -> real): int -> real { i => x(i) * x(i) }

  function Norm(w: Weights, x: int -> real, i: int): real
    requires Shaped(w)
  {
    x(i) * w.rstd(Sum(w.h, Squares(x)) / w.h as real) * At(w.norm, i)
  }

  function DownTerms(w: Weights, x: int -> real, j: int): int -> real
    requires Shaped(w)
  {
    i => Norm(w, x, i) * At(w.down, j * w.h + i)
  }

  function Silu(w: Weights, z: real): real { z * w.sigmoid(z) }

  function UpTerms(w: Weights, x: int -> real, i: int): int -> real
    requires Shaped(w)
  {
    j => Silu(w, Sum(w.h, DownTerms(w, x, j))) * At(w.up, i * w.r + j)
  }

  /** y * sigmoid(W_up silu(W_down y)) at lane i, with y the RMSNorm of x. */
  function Gated(w: Weights, x: int -> real, i: int): real
    requires Shaped(w)
  {
    Norm(w, x, i) * w.sigmoid(Sum(w.r, UpTerms(w, x, i)))
  }

  /** The layer's steps on whole vectors: RMSNorm, W_down, SiLU, W_up. */
  ghost predicate Steps(w: Weights, x: seq<real>, y: seq<real>, d: seq<real>, z: seq<real>, u: seq<real>)
    requires Shaped(w)
  {
    && |x| == |y| == |u| == w.h && |d| == |z| == w.r
    && (forall i | 0 <= i < w.h :: y[i] == x[i] * w.rstd(Sum(w.h, k => At(x, k) * At(x, k)) / w.h as real) * w.norm[i])
    && (forall j | 0 <= j < w.r :: d[j] == Sum(w.h, i => At(w.down, j * w.h + i) * At(y, i)))
    && (forall j | 0 <= j < w.r :: z[j] == d[j] * w.sigmoid(d[j]))
    && (forall i | 0 <= i < w.h :: u[i] == Sum(w.r, j => At(w.up, i * w.r + j) * At(z, j)))
  }

  lemma DownIsStep(w: Weights, x: seq<real>, y: seq<real>, d: seq<real>, z: seq<real>, u: seq<real>, j: nat)
    requires Shaped(w) && Steps(w, x, y, d, z, u) && j < w.r
    ensures Sum(w.h, DownTerms(w, k => At(x, k), j)) == d[j]
  {
    hide Sum;
    var f := (k: int) => At(x, k);
    Congruent(w.h, Squares(f), k => At(x, k) * At(x, k));
    forall k | 0 <= k < w.h ensures DownTerms(w, f, j)(k) == At(w.down, j * w.h + k) * At(y, k) {
      assert Norm(w, f, k) == y[k];
    }
    Congruent(w.h, DownTerms(w, f, j), k => At(w.down, j * w.h + k) * At(y, k));
  }

  /** Whatever vectors the steps give, a lane of the formula is y gated by the sigmoid of W_up's output. */
  lemma GatedIsSteps(w: Weights, x: seq<real>, y: seq<real>, d: seq<real>, z: seq<real>, u: seq<real>, i: nat)
    requires Shaped(w) && Steps(w, x, y, d, z, u) && i < w.h
    ensures Gated(w, k => At(x, k), i) == y[i] * w.sigmoid(u[i])
  {
    hide Sum, DownTerms;
    var f := (k: int) => At(x, k);
    Congruent(w.h, Squares(f), k => At(x, k) * At(x, k));
    assert Norm(w, f, i) == y[i];
    forall j | 0 <= j < w.r ensures UpTerms(w, f, i)(j) == At(w.up, i * w.r + j) * At(z, j) {
      DownIsStep(w, x, y, d, z, u, j);
      assert Silu(w, d[j]) == z[j];
    }
    Congruent(w.r, UpTerms(w, f, i), j => At(w.up, i * w.r + j) * At(z, j));
  }

  /******* Vector operations of the kernel *******/

  /** tl.load(base + lanes, mask = lanes < h, other = 0.0); only unmasked lanes touch memory. */
  function Load(mem: seq<real>, base: nat, h: nat, block: nat): (v: seq<real>)
    requires h <= block && base + h <= |mem|
    ensures |v| == block
    ensures forall i | 0 <= i < block :: v[i] == if i < h then mem[base + i] else 0.0
  {
    seq(block, i requires 0 <= i < block => if i < h then mem[base + i] else 0.0)
  }

  /** tl.sum(u * v) over every lane. */
  function Dot(u: seq<real>, v: seq<real>): real { Sum(|u|, i => At(u, i) * At(v, i)) }

  /** The lanes of `v` hold `x` up to h and zero beyond. */
  ghost predicate Holds(v: seq<real>, h: nat, x: int -> real)
  {
    h <= |v| && (forall i | 0 <= i < h :: v[i] == x(i)) && forall i | h <= i < |v| :: v[i] == 0.0
  }

  /** Masked lanes add nothing: a block-wide dot product is a sum of h terms. */
  lemma MaskedDot(u: seq<real>, v: seq<real>, h: nat, f: int -> real)
    requires h <= |u| && forall i | h <= i < |u| :: u[i] == 0.0
    requires forall i | 0 <= i < h :: f(i) == u[i] * At(v, i)
    ensures Dot(u, v) == Sum(h, f)
  {
    var g := i => At(u, i) * At(v, i);
    Truncate(h, |u|, g);
    Congruent(h, g, f);
  }

  /** Step 2: the masked lanes of `xs` neither reach the mean nor survive it. */
  method Normalize(w: Weights, xs: seq<real>, ghost x: int -> real) returns (ys: seq<real>)
    requires Shaped(w) && Holds(xs, w.h, x)
    ensures |ys| == |xs| && Holds(ys, w.h, i => Norm(w, x, i))
  {
    hide Sum, Dot;
    MaskedDot(xs, xs, w.h, Squares(x));
    var rstd := w.rstd(Dot(xs, xs) / w.h as real);
    var norms := Load(w.norm, 0, w.h, |xs|);
    ys := seq(|xs|, i requires 0 <= i < |xs| => xs[i] * rstd * norms[i]);
  }

  /** Steps 3 and 4: W_down by rows, then SiLU. */
  method Shrink(w: Weights, ys: seq<real>, ghost x: int -> real) returns (zs: seq<real>)
    requires Shaped(w) && Holds(ys, w.h, i => Norm(w, x, i))
    ensures |zs| == w.r && forall j | 0 <= j < w.r :: zs[j] == Silu(w, Sum(w.h, DownTerms(w, x, j)))
  {
    hide Sum, Dot, Norm;
    zs := [];
    for j := 0 to w.r
      invariant |zs| == j
      invariant forall k | 0 <= k < j :: zs[k] == Silu(w, Sum(w.h, DownTerms(w, x, k)))
    {
      RowFits(j, w.r, w.h);
      var row := Load(w.down, j * w.h, w.h, |ys|);
      var terms := DownTerms(w, x, j);
      forall i | 0 <= i < w.h ensures terms(i) == ys[i] * At(row, i) {
        assert ys[i] == Norm(w, x, i);
        assert At(row, i) == At(w.down, j * w.h + i);
        assert terms(i) == Norm(w, x, i) * At(w.down, j * w.h + i);
      }
      MaskedDot(ys, row, w.h, terms);
      zs := zs + [Silu(w, Dot(ys, row))];
    }
  }

  /** Steps 5 and 6: W_up by rows, then the sigmoid gate on each lane. */
  method Gate(w: Weights, ys: seq<real>, zs: seq<real>, ghost x: int -> real) returns (outs: seq<real>)
    requires Shaped(w) && Holds(ys, w.h, i => Norm(w, x, i))
    requires |zs| == w.r && forall j | 0 <= j < w.r :: zs[j] == Silu(w, Sum(w.h, DownTerms(w, x, j)))
    ensures |outs| == |ys| && forall i | 0 <= i < w.h :: outs[i] == Gated(w, x, i)
  {
    hide Sum, Dot, Norm;
    outs := [];
    for i := 0 to |ys|
      invariant |outs| == i
      invariant forall k | 0 <= k < i && k < w.h :: outs[k] == Gated(w, x, k)
    {
      var row := seq(w.r, _ => 0.0);
      if i < w.h {
        RowFits(i, w.h, w.r);
        row := Load(w.up, i * w.r, w.r, w.r);
        MaskedDot(zs, row, w.r, UpTerms(w, x, i));
      }
      outs := outs + [ys[i] * w.sigmoid(Dot(zs, row))];
    }
  }

  /** Row j of a row-major matrix lies inside it. */
  lemma RowFits(j: nat, rows: nat, width: nat)
    requires j < rows
    ensures 0 <= j * width && j * width + width <= rows * width
  {
    MulMonotone(j + 1, rows, width);
    assert (j + 1) * width == j * width + width;
  }

  /******* One program, and the grid *******/

  predicate InRow(q: int, row: int, stride: nat, h: nat) { row * stride <= q < row * stride + h }

  /** `rows` rows of h elements at this stride lie in the buffer, without overlap. */
  predicate Strided(length: nat, rows: nat, stride: nat, h: nat)
  {
    h <= stride && forall p {:trigger p * stride} | 0 <= p < rows :: p * stride + h <= length
  }

  lemma RowsDisjoint(p: nat, q: nat, stride: nat, h: nat, k: int)
    requires h <= stride && p != q && InRow(k, p, stride, h)
    ensures !InRow(k, q, stride, h)
  {
    MulMonotone(p + 1, q, stride);
    MulMonotone(q + 1, p, stride);
    assert (p + 1) * stride == p * stride + stride && (q + 1) * stride == q * stride + stride;
  }

  function RowAt(s: seq<real>, stride: nat, p: int, i: int): real { At(s, p * stride + i) }

  /** From `before` to `after`, row p became f(p, .) and nothing else changed. */
  ghost predicate Wrote(before: seq<real>, after: seq<real>, p: nat, stride: nat, h: nat, f: (int, int) -> real)
  {
    && |after| == |before|
    && (forall i | 0 <= i < h :: RowAt(after, stride, p, i) == f(p, i))
    && forall q | 0 <= q < |after| && !InRow(q, p, stride, h) :: after[q] == before[q]
  }

  /** Lane i of row p going into the norm: x, plus the residual when there is one. */
  function Inputs(x: seq<real>, sx: nat, residual: seq<real>, sr: nat, hasResidual: bool): (int, int) -> real
  {
    (p, i) => RowAt(x, sx, p, i) + (if hasResidual then RowAt(residual, sr, p, i) else 0.0)
  }

  function Row(f: (int, int) -> real, p: int): int -> real { i => f(p, i) }

  /** The plain formula, row by row. */
  function GatedRows(w: Weights, inputs: (int, int) -> real): (int, int) -> real
    requires Shaped(w)
  {
    (p, i) => Gated(w, Row(inputs, p), i)
  }

  /** The kernel for one program id. */
  method Program(x: array<real>, residual: array<real>, out: array<real>, w: Weights, pid: nat,
                 sx: nat, sr: nat, so: nat, hasResidual: bool, block: nat)
    requires Shaped(w) && w.h <= block && residual != out
    requires pid * sx + w.h <= x.Length && pid * so + w.h <= out.Length
    requires hasResidual ==> pid * sr + w.h <= residual.Length
    modifies residual, out
    ensures var inputs := Inputs(old(x[..]), sx, old(residual[..]), sr, hasResidual);
            && Wrote(old(out[..]), out[..], pid, so, w.h, GatedRows(w, inputs))
            && (hasResidual ==> Wrote(old(residual[..]), residual[..], pid, sr, w.h, inputs))
            && (!hasResidual ==> residual[..] == old(residual[..]))
  {
    hide Gated;
    var xs := Load(x[..], pid * sx, w.h, block);
    ghost var inputs := Inputs(x[..], sx, residual[..], sr, hasResidual);
    if hasResidual {
      var rs := Load(residual[..], pid * sr, w.h, block);
      xs := seq(block, i requires 0 <= i < block => xs[i] + rs[i]);
    }
    ghost var input := Row(inputs, pid);
    assert Holds(xs, w.h, input);
    if hasResidual {
      forall i | 0 <= i < w.h { residual[pid * sr + i] := xs[i]; }
      assert Wrote(old(residual[..]), residual[..], pid, sr, w.h, inputs);
    }
    var ys := Normalize(w, xs, input);
    var zs := Shrink(w, ys, input);
    var outs := Gate(w, ys, zs, input);
    forall i | 0 <= i < w.h { out[pid * so + i] := outs[i]; }
  }

  /** Only lanes 0 .. h-1 of the input matter. */
  lemma GatedCongruent(w: Weights, x: int -> real, y: int -> real, i: nat)
    requires Shaped(w) && i < w.h && forall k | 0 <= k < w.h :: x(k) == y(k)
    ensures Gated(w, x, i) == Gated(w, y, i)
  {
    hide Sum;
    Congruent(w.h, Squares(x), Squares(y));
    forall j | 0 <= j < w.r ensures UpTerms(w, x, i)(j) == UpTerms(w, y, i)(j) {
      Congruent(w.h, DownTerms(w, x, j), DownTerms(w, y, j));
    }
    Congruent(w.r, UpTerms(w, x, i), UpTerms(w, y, i));
  }

  /** The same for a list of rows. */
  ghost predicate Filled(before: seq<real>, after: seq<real>, rows: seq<nat>, stride: nat, h: nat,
                         f: (int, int) -> real)
  {
    && |after| == |before|
    && (forall k, i | 0 <= k < |rows| && 0 <= i < h :: RowAt(after, stride, rows[k], i) == f(rows[k], i))
    && forall q | 0 <= q < |after| && (forall k | 0 <= k < |rows| :: !InRow(q, rows[k], stride, h)) ::
         after[q] == before[q]
  }

  lemma FillOneMore(start: seq<real>, before: seq<real>, after: seq<real>, rows: seq<nat>, p: nat, m: nat, stride: nat,
                    h: nat,
                    f: (int, int) -> real)
    requires Filled(start, before, rows, stride, h, f) && Wrote(before, after, p, stride, h, f)
    requires Strided(|start|, m, stride, h) && p < m
    requires forall k | 0 <= k < |rows| :: rows[k] < m && rows[k] != p
    ensures Filled(start, after, rows + [p], stride, h, f)
  {
    var all := rows + [p];
    forall k, i | 0 <= k < |all| && 0 <= i < h ensures RowAt(after, stride, all[k], i) == f(all[k], i) {
      if k < |rows| {
        var q := rows[k] * stride + i;
        assert InRow(q, rows[k], stride, h);
        RowsDisjoint(rows[k], p, stride, h, q);
        assert RowAt(before, stride, rows[k], i) == f(rows[k], i);
      }
    }
    forall q | 0 <= q < |after| && (forall k | 0 <= k < |all| :: !InRow(q, all[k], stride, h))
      ensures after[q] == start[q]
    {
      assert all[|rows|] == p;
      forall k | 0 <= k < |rows| ensures !InRow(q, rows[k], stride, h) { assert all[k] == rows[k]; }
    }
  }

  /** A row not filled yet still holds what it started with. */
  lemma RowUntouched(start: seq<real>, now: seq<real>, rows: seq<nat>, p: nat, stride: nat, h: nat,
                     f: (int, int) -> real, i: nat)
    requires Filled(start, now, rows, stride, h, f) && h <= stride && i < h && p * stride + h <= |start|
    requires forall k | 0 <= k < |rows| :: rows[k] != p
    ensures RowAt(now, stride, p, i) == RowAt(start, stride, p, i)
  {
    var q := p * stride + i;
    assert InRow(q, p, stride, h);
    forall k | 0 <= k < |rows| ensures !InRow(q, rows[k], stride, h) { RowsDisjoint(p, rows[k], stride, h, q); }
    assert 0 <= p * stride;
  }

  lemma StridedRow(length: nat, m: nat, stride: nat, h: nat, p: nat)
    requires Strided(length, m, stride, h) && p < m
    ensures p * stride + h <= length && h <= stride
  {
  }

  lemma WroteCongruent(before: seq<real>, after: seq<real>, p: nat, stride: nat, h: nat, f: (int, int) -> real,
                       g: (int, int) -> real)
    requires Wrote(before, after, p, stride, h, f) && forall i | 0 <= i < h :: f(p, i) == g(p, i)
    ensures Wrote(before, after, p, stride, h, g)
  {
  }

  /** The in-place residual update of other rows leaves the inputs of this one alone. */
  lemma InputsUntouched(x: seq<real>, sx: nat, start: seq<real>, now: seq<real>, rows: seq<nat>, p: nat, sr: nat,
                        h: nat)
    requires Filled(start, now, rows, sr, h, Inputs(x, sx, start, sr, true)) && h <= sr && p * sr + h <= |start|
    requires forall k | 0 <= k < |rows| :: rows[k] != p
    ensures forall i | 0 <= i < h :: Inputs(x, sx, now, sr, true)(p, i) == Inputs(x, sx, start, sr, true)(p, i)
  {
    forall i: nat | i < h { RowUntouched(start, now, rows, p, sr, h, Inputs(x, sx, start, sr, true), i); }
  }

  /** Each program id once, in any order. */
  ghost predicate Schedule(order: seq<nat>, m: nat)
  {
    && (forall k | 0 <= k < |order| :: order[k] < m)
    && (forall j, k | 0 <= j < k < |order| :: order[j] != order[k])
    && forall p: nat | p < m :: p in order
  }

  method Launch(x: array<real>, residual: array<real>, out: array<real>, w: Weights, m: nat, order: seq<nat>,
                sx: nat, sr: nat, so: nat, hasResidual: bool, block: nat)
    requires Shaped(w) && w.h <= block && residual != out && x != out && (hasResidual ==> x != residual)
    requires Schedule(order, m)
    requires Strided(out.Length, m, so, w.h) && (hasResidual ==> Strided(residual.Length, m, sr, w.h))
    requires forall p {:trigger p * sx} | 0 <= p < m :: p * sx + w.h <= x.Length
    modifies residual, out
    ensures x[..] == old(x[..])
    ensures var inputs := Inputs(old(x[..]), sx, old(residual[..]), sr, hasResidual);
            && Filled(old(out[..]), out[..], order, so, w.h, GatedRows(w, inputs))
            && (hasResidual ==> Filled(old(residual[..]), residual[..], order, sr, w.h, inputs))
            && (!hasResidual ==> residual[..] == old(residual[..]))
  {
    hide Gated, Filled, Wrote, Strided;
    ghost var inputs := Inputs(x[..], sx, residual[..], sr, hasResidual);
    NothingFilled(out[..], so, w.h, GatedRows(w, inputs));
    NothingFilled(residual[..], sr, w.h, inputs);
    for k := 0 to |order|
      invariant x[..] == old(x[..])
      invariant Filled(old(out[..]), out[..], order[..k], so, w.h, GatedRows(w, inputs))
      invariant hasResidual ==> Filled(old(residual[..]), residual[..], order[..k], sr, w.h, inputs)
      invariant !hasResidual ==> residual[..] == old(residual[..])
    {
      var p := order[k];
      StridedRow(out.Length, m, so, w.h, p);
      if hasResidual {
        StridedRow(residual.Length, m, sr, w.h, p);
        InputsUntouched(x[..], sx, old(residual[..]), residual[..], order[..k], p, sr, w.h);
      }
      ghost var now, res, gated := Inputs(x[..], sx, residual[..], sr, hasResidual), residual[..], out[..];
      Program(x, residual, out, w, p, sx, sr, so, hasResidual, block);
      if hasResidual {
        WroteCongruent(res, residual[..], p, sr, w.h, now, inputs);
        FillOneMore(old(residual[..]), res, residual[..], order[..k], p, m, sr, w.h, inputs);
      }
      forall i: nat | i < w.h { GatedCongruent(w, Row(now, p), Row(inputs, p), i); }
      WroteCongruent(gated, out[..], p, so, w.h, GatedRows(w, now), GatedRows(w, inputs));
      FillOneMore(old(out[..]), gated, out[..], order[..k], p, m, so, w.h, GatedRows(w, inputs));
      assert order[..k + 1] == order[..k] + [p];
    }
    assert order[..|order|] == order;
  }

  lemma NothingFilled(s: seq<real>, stride: nat, h: nat, f: (int, int) -> real)
    ensures Filled(s, s, [], stride, h, f)
  {
  }

  /******* The wrapper *******/

  datatype Refusal = EmptyRows | WeightShape | RankNotPowerOfTwo | RowTooWide

  const MAX_BLOCK: nat := 8192

  function Verdict(w: Weights): Option<Refusal>
  {
    if w.h == 0 then Some(EmptyRows)
    else if !Shaped(w) then Some(WeightShape)
    else if w.r == 0 || BitAnd(w.r, w.r - 1) != 0 then Some(RankNotPowerOfTwo)
    else if NextPowerOfTwo(w.h) > MAX_BLOCK then Some(RowTooWide)
    else None
  }

  /** What is accepted: shaped weights, a power-of-two rank, rows of at most 8192; and what is refused, and as what. */
  lemma AcceptedIff(w: Weights)
    ensures Verdict(w).None? <==> Shaped(w) && IsPow2(w.r) && w.h <= 8192
    ensures Verdict(w) == Some(EmptyRows) <==> w.h == 0
    ensures Verdict(w) == Some(WeightShape) <==> w.h > 0 && !Shaped(w)
    ensures Verdict(w) == Some(RankNotPowerOfTwo) <==> Shaped(w) && !IsPow2(w.r)
    ensures Verdict(w) == Some(RowTooWide) <==> Shaped(w) && IsPow2(w.r) && w.h > 8192
  {
    if w.r > 0 { PowerOfTwoTest(w.r); } else { ZeroIsNoPower(); }
    NextPowerOfTwoIsLeast(w.h);
    assert MAX_BLOCK == Pow2(13);
    assert IsPow2(MAX_BLOCK);
  }

  /**
   axk2_gated_rmsnorm_triton on m rows of x, the contiguous residual updated in place; `order` is the order
   the grid ran in.
   */
  method GatedRmsNorm(x: array<real>, m: nat, sx: nat, residual: array<real>, hasResidual: bool, w: Weights,
                      order: seq<nat>)
    returns (r: Result<array<real>, Refusal>)
    requires forall p {:trigger p * sx} | 0 <= p < m :: p * sx + w.h <= x.Length
    requires hasResidual ==> residual != x && residual.Length == m * w.h
    requires Schedule(order, m)
    modifies residual
    ensures r.Ok? <==> Shaped(w) && IsPow2(w.r) && w.h <= 8192
    ensures r.Err? ==> Verdict(w) == Some(r.error)
    ensures x[..] == old(x[..])
    ensures !hasResidual || r.Err? ==> residual[..] == old(residual[..])
    ensures r.Ok? ==>
      var inputs := Inputs(old(x[..]), sx, old(residual[..]), w.h, hasResidual);
      && fresh(r.value) && r.value.Length == m * w.h
      && (forall p: nat, i: nat | p < m && i < w.h :: RowAt(r.value[..], w.h, p, i) == Gated(w, Row(inputs, p), i))
      && (hasResidual ==> forall p: nat, i: nat | p < m && i < w.h :: RowAt(residual[..], w.h, p, i) == inputs(p, i))
  {
    hide Gated, Filled;
    AcceptedIff(w);
    var verdict := Verdict(w);
    if verdict.Some? {
      return Err(verdict.value);
    }
    var out := new real[m * w.h](_ => 0.0);
    NextPowerOfTwoIsLeast(w.h);
    Contiguous(m, w.h);
    ghost var before, inputs := out[..], Inputs(x[..], sx, residual[..], w.h, hasResidual);
    ghost var was := residual[..];
    Launch(x, residual, out, w, m, order, sx, w.h, w.h, hasResidual, NextPowerOfTwo(w.h));
    EveryRow(before, out[..], order, m, w.h, GatedRows(w, inputs));
    if hasResidual { EveryRow(was, residual[..], order, m, w.h, inputs); }
    r := Ok(out);
  }

  lemma ZeroIsNoPower()
    ensures !IsPow2(0)
  {
    forall k: nat ensures Pow2(k) > 0 { Pow2Monotone(0, k); }
  }

  lemma Contiguous(m: nat, h: nat)
    ensures Strided(m * h, m, h, h)
  {
    forall p: nat | p < m ensures p * h + h <= m * h { RowFits(p, m, h); }
  }

  lemma EveryRow(before: seq<real>, after: seq<real>, order: seq<nat>, m: nat, h: nat, f: (int, int) -> real)
    requires Filled(before, after, order, h, h, f) && Schedule(order, m)
    ensures forall p: nat, i: nat | p < m && i < h :: RowAt(after, h, p, i) == f(p, i)
  {
    forall p: nat, i: nat | p < m && i < h ensures RowAt(after, h, p, i) == f(p, i) {
      assert p in order;
      var k :| 0 <= k < |order| && order[k] == p;
    }
  }
}
