/**
 All-gather along the last dimension, by a gather on dimension 0 and then reshape, permute, reshape.

 A tensor is a shape with its elements in row-major order. The gather itself lays the ranks' elements
 end to end; everything after it only renumbers them, and must end as concatenation on the last dimension.
 */
module AllGather {
  import opened Arith
  import opened Options

  /******* Row-major tensors *******/

  datatype Tensor<T> = Tensor(shape: seq<nat>, data: seq<T>)

  function Size(shape: seq<nat>): nat { if shape == [] then 1 else shape[0] * Size(shape[1..]) }

  ghost predicate Valid<T>(t: Tensor<T>) { |t.data| == Size(t.shape) }

  ghost predicate InRange(shape: seq<nat>, idx: seq<nat>)
  {
    |idx| == |shape| && forall d | 0 <= d < |shape| :: idx[d] < shape[d]
  }

  /** The position of a multi-index. */
  function Offset(shape: seq<nat>, idx: seq<nat>): nat
    requires |idx| == |shape|
  {
    if shape == [] then 0 else idx[0] * Size(shape[1..]) + Offset(shape[1..], idx[1..])
  }

  /** The multi-index of a position. */
  function Unravel(shape: seq<nat>, k: nat): (idx: seq<nat>)
    requires k < Size(shape)
    ensures |idx| == |shape|
  {
    if shape == [] then [] else
      var rest := Size(shape[1..]);
      assert rest > 0;
      [k / rest] + Unravel(shape[1..], k % rest)
  }

  lemma {:induction false} OffsetInRange(shape: seq<nat>, idx: seq<nat>)
    requires InRange(shape, idx)
    ensures Offset(shape, idx) < Size(shape)
    ensures Unravel(shape, Offset(shape, idx)) == idx
  {
    if shape != [] {
      var rest := Size(shape[1..]);
      OffsetInRange(shape[1..], idx[1..]);
      IndexBound(idx[0], shape[0], rest, Offset(shape[1..], idx[1..]));
      IndexUnique(idx[0], rest, Offset(shape[1..], idx[1..]));
    }
  }

  lemma {:induction false} UnravelInRange(shape: seq<nat>, k: nat)
    requires k < Size(shape)
    ensures InRange(shape, Unravel(shape, k))
    ensures Offset(shape, Unravel(shape, k)) == k
  {
    if shape != [] {
      var rest := Size(shape[1..]);
      IndexSplit(k, shape[0], rest);
      UnravelInRange(shape[1..], k % rest);
    }
  }

  function At<T>(t: Tensor<T>, idx: seq<nat>): T
    requires Valid(t) && InRange(t.shape, idx)
  {
    OffsetInRange(t.shape, idx);
    t.data[Offset(t.shape, idx)]
  }

  function Reshape<T>(t: Tensor<T>, shape: seq<nat>): Tensor<T> { Tensor(shape, t.data) }

  /** A permutation of the dimensions together with its inverse. */
  ghost predicate Inverses(perm: seq<nat>, back: seq<nat>)
  {
    |perm| == |back|
    && forall d | 0 <= d < |perm| :: perm[d] < |perm| && back[d] < |perm| && perm[back[d]] == d && back[perm[d]] == d
  }

  function Pick(s: seq<nat>, perm: seq<nat>): (r: seq<nat>)
    requires |s| == |perm| && forall d | 0 <= d < |perm| :: perm[d] < |perm|
    ensures |r| == |perm| && forall d | 0 <= d < |perm| :: r[d] == s[perm[d]]
  {
    seq(|perm|, d requires 0 <= d < |perm| => s[perm[d]])
  }

  lemma PickInRange(shape: seq<nat>, perm: seq<nat>, back: seq<nat>, idx: seq<nat>)
    requires |perm| == |shape| && Inverses(perm, back) && InRange(Pick(shape, perm), idx)
    ensures InRange(shape, Pick(idx, back))
  {
  }

  /** Where element k of t.permute(perm) comes from. */
  function PermutedElement<T>(t: Tensor<T>, perm: seq<nat>, back: seq<nat>, k: nat): T
    requires Valid(t) && |perm| == |t.shape| && Inverses(perm, back) && k < Size(Pick(t.shape, perm))
  {
    UnravelInRange(Pick(t.shape, perm), k);
    PickInRange(t.shape, perm, back, Unravel(Pick(t.shape, perm), k));
    At(t, Pick(Unravel(Pick(t.shape, perm), k), back))
  }

  /** t.permute(perm): dimension d of the result is dimension perm[d] of t. */
  function Permute<T>(t: Tensor<T>, perm: seq<nat>, back: seq<nat>): (r: Tensor<T>)
    requires Valid(t) && |perm| == |t.shape| && Inverses(perm, back)
    ensures Valid(r) && r.shape == Pick(t.shape, perm)
    ensures forall k | 0 <= k < |r.data| :: r.data[k] == PermutedElement(t, perm, back, k)
  {
    var shape := Pick(t.shape, perm);
    Tensor(shape, seq(Size(shape), k requires 0 <= k < Size(shape) => PermutedElement(t, perm, back, k)))
  }

  lemma PermuteAt<T>(t: Tensor<T>, perm: seq<nat>, back: seq<nat>, idx: seq<nat>)
    requires Valid(t) && |perm| == |t.shape| && Inverses(perm, back) && InRange(Pick(t.shape, perm), idx)
    ensures InRange(t.shape, Pick(idx, back))
    ensures At(Permute(t, perm, back), idx) == At(t, Pick(idx, back))
  {
    hide Permute;
    PickInRange(t.shape, perm, back, idx);
    OffsetInRange(Pick(t.shape, perm), idx);
  }

  /******* The collective *******/

  datatype Error = NotYetImplemented | BadDimension

  /** Every rank contributes a tensor of this shape. */
  ghost predicate Alike<T>(inputs: seq<Tensor<T>>, shape: seq<nat>)
  {
    0 < |inputs| && forall r | 0 <= r < |inputs| :: inputs[r].shape == shape && Valid(inputs[r])
  }

  /** all_gather_into_tensor: the ranks' elements end to end. */
  function Gathered<T>(inputs: seq<Tensor<T>>): (data: seq<T>)
    ensures inputs == [] ==> data == []
  {
    if inputs == [] then [] else Gathered(inputs[..|inputs| - 1]) + inputs[|inputs| - 1].data
  }

  lemma {:induction false} GatheredLength<T>(inputs: seq<Tensor<T>>, size: nat)
    requires forall q | 0 <= q < |inputs| :: |inputs[q].data| == size
    ensures |Gathered(inputs)| == |inputs| * size
  {
    if inputs != [] {
      var n := |inputs| - 1;
      GatheredLength(inputs[..n], size);
      assert (n + 1) * size == n * size + size;
    }
  }

  lemma {:induction false} GatheredAt<T>(inputs: seq<Tensor<T>>, size: nat, r: nat, k: nat)
    requires forall q | 0 <= q < |inputs| :: |inputs[q].data| == size
    requires r < |inputs| && k < size
    ensures |Gathered(inputs)| == |inputs| * size && 0 <= r * size + k < |inputs| * size
    ensures Gathered(inputs)[r * size + k] == inputs[r].data[k]
  {
    var n := |inputs| - 1;
    GatheredLength(inputs, size);
    GatheredLength(inputs[..n], size);
    IndexBound(r, |inputs|, size, k);
    if r < n {
      GatheredAt(inputs[..n], size, r, k);
      assert inputs[..n][r] == inputs[r];
    }
  }

  /** The gathered elements, reshaped to (world,) + shape. */
  function Stacked<T>(inputs: seq<Tensor<T>>, shape: seq<nat>): (t: Tensor<T>)
    requires Alike(inputs, shape)
    ensures Valid(t) && t.shape == [|inputs|] + shape
  {
    GatheredLength(inputs, Size(shape));
    Tensor([|inputs|] + shape, Gathered(inputs))
  }

  /** (0, 1, 2, 3) -> (1, 2, 0, 3), then the last two dimensions merged. */
  function MergeThird<T>(t: Tensor<T>): Tensor<T>
    requires Valid(t) && |t.shape| == 4
  {
    var moved := Permute(t, [1, 2, 0, 3], [2, 0, 1, 3]);
    Reshape(moved, [t.shape[1], t.shape[2], t.shape[0] * t.shape[3]])
  }

  /** (0, 1, 2) -> (1, 0, 2), then the last two dimensions merged. */
  function MergeSecond<T>(t: Tensor<T>): Tensor<T>
    requires Valid(t) && |t.shape| == 3
  {
    var moved := Permute(t, [1, 0, 2], [1, 0, 2]);
    Reshape(moved, [t.shape[1], t.shape[0] * t.shape[2]])
  }

  /** RblnCommunicator.all_gather, with every rank's input in view. */
  function AllGather<T>(inputs: seq<Tensor<T>>, shape: seq<nat>, dim: int): Result<Tensor<T>, Error>
    requires Alike(inputs, shape)
  {
    if shape == [] then Err(BadDimension)
    else if dim == -1 then
      if |shape| == 3 then Ok(MergeThird(Stacked(inputs, shape)))
      else if |shape| == 2 then Ok(MergeSecond(Stacked(inputs, shape)))
      else Err(NotYetImplemented)
    else if dim == 0 then Ok(Tensor(shape[0 := |inputs| * shape[0]], Gathered(inputs)))
    else Err(NotYetImplemented)
  }

  /******* What it must be *******/

  /** torch.cat along dimension d: rank r's index j on that dimension becomes r * shape[d] + j. */
  ghost predicate IsConcat<T>(inputs: seq<Tensor<T>>, shape: seq<nat>, d: nat, out: Tensor<T>)
    requires Alike(inputs, shape) && d < |shape|
  {
    && Valid(out) && out.shape == shape[d := |inputs| * shape[d]]
    && forall r: nat, idx: seq<nat> | r < |inputs| && InRange(shape, idx) ::
         && InRange(out.shape, Placed(shape, d, r, idx))
         && At(out, Placed(shape, d, r, idx)) == At(inputs[r], idx)
  }

  /** Where rank r's element idx belongs in the concatenation along dimension d. */
  function Placed(shape: seq<nat>, d: nat, r: nat, idx: seq<nat>): seq<nat>
    requires d < |shape| == |idx|
  {
    idx[d := r * shape[d] + idx[d]]
  }

  lemma StackedAt<T>(inputs: seq<Tensor<T>>, shape: seq<nat>, r: nat, idx: seq<nat>)
    requires Alike(inputs, shape) && r < |inputs| && InRange(shape, idx)
    ensures InRange([|inputs|] + shape, [r] + idx) && At(Stacked(inputs, shape), [r] + idx) == At(inputs[r], idx)
  {
    OffsetInRange(shape, idx);
    GatheredAt(inputs, Size(shape), r, Offset(shape, idx));
    assert ([|inputs|] + shape)[1..] == shape && ([r] + idx)[1..] == idx;
  }

  lemma {:induction false} MergeSize(prefix: seq<nat>, w: nat, b: nat)
    ensures Size(prefix + [w, b]) == Size(prefix + [w * b])
  {
    if prefix == [] {
      OffsetOfPair(w, b, 0, 0);
      assert prefix + [w, b] == [w, b] && prefix + [w * b] == [w * b];
    } else {
      MergeSize(prefix[1..], w, b);
      Cons(prefix, [w, b]);
      Cons(prefix, [w * b]);
    }
  }

  /** Merging two trailing dimensions keeps every position. */
  lemma {:induction false} MergeTrailing(prefix: seq<nat>, w: nat, b: nat, pre: seq<nat>, r: nat, j: nat)
    requires InRange(prefix, pre) && r < w && j < b
    ensures InRange(prefix + [w, b], pre + [r, j]) && InRange(prefix + [w * b], pre + [r * b + j])
    ensures Offset(prefix + [w, b], pre + [r, j]) == Offset(prefix + [w * b], pre + [r * b + j])
  {
    IndexBound(r, w, b, j);
    if prefix == [] {
      OffsetOfPair(w, b, r, j);
      assert prefix + [w, b] == [w, b] && prefix + [w * b] == [w * b];
      assert pre + [r, j] == [r, j] && pre + [r * b + j] == [r * b + j];
    } else {
      MergeTrailing(prefix[1..], w, b, pre[1..], r, j);
      MergeSize(prefix[1..], w, b);
      Cons(prefix, [w, b]);
      Cons(prefix, [w * b]);
      Cons(pre, [r, j]);
      Cons(pre, [r * b + j]);
    }
  }

  lemma Cons(s: seq<nat>, t: seq<nat>)
    requires s != []
    ensures (s + t)[0] == s[0] && (s + t)[1..] == s[1..] + t
  {
  }

  lemma OneDimension(n: nat, i: nat)
    ensures Size([n]) == n && Offset([n], [i]) == i
  {
    assert [n][1..] == [] && [i][1..] == [];
    assert Size([]) == 1;
    assert Offset([], []) == 0;
  }

  lemma OffsetOfPair(w: nat, b: nat, r: nat, j: nat)
    ensures Size([w, b]) == w * b == Size([w * b])
    ensures Offset([w, b], [r, j]) == r * b + j == Offset([w * b], [r * b + j])
  {
    OneDimension(b, j);
    OneDimension(w * b, r * b + j);
    assert [w, b][1..] == [b] && [r, j][1..] == [j];
  }

  lemma MergeSecondShape<T>(t: Tensor<T>)
    requires Valid(t) && |t.shape| == 3
    ensures Valid(MergeSecond(t))
  {
    assert Pick(t.shape, [1, 0, 2]) == [t.shape[1]] + [t.shape[0], t.shape[2]];
    MergeSize([t.shape[1]], t.shape[0], t.shape[2]);
    assert [t.shape[1]] + [t.shape[0] * t.shape[2]] == MergeSecond(t).shape;
  }

  lemma MergeThirdShape<T>(t: Tensor<T>)
    requires Valid(t) && |t.shape| == 4
    ensures Valid(MergeThird(t))
  {
    assert Pick(t.shape, [1, 2, 0, 3]) == t.shape[1..3] + [t.shape[0], t.shape[3]];
    MergeSize(t.shape[1..3], t.shape[0], t.shape[3]);
    assert t.shape[1..3] + [t.shape[0] * t.shape[3]] == MergeThird(t).shape;
  }

  lemma InversesHold()
    ensures Inverses([1, 0, 2], [1, 0, 2]) && Inverses([1, 2, 0, 3], [2, 0, 1, 3])
  {
  }

  /** [i][r * b + j] of the 2-D result is rank r's [i][j]. */
  lemma MergeSecondAt<T>(inputs: seq<Tensor<T>>, shape: seq<nat>, r: nat, idx: seq<nat>)
    requires Alike(inputs, shape) && |shape| == 2 && r < |inputs| && InRange(shape, idx)
    ensures var out := MergeSecond(Stacked(inputs, shape)); var to := [idx[0], r * shape[1] + idx[1]];
            Valid(out) && InRange(out.shape, to) && At(out, to) == At(inputs[r], idx)
  {
    hide Permute, Offset, Size, Gathered, Stacked, Inverses;
    assert Inverses([1, 0, 2], [1, 0, 2]) && Inverses([1, 2, 0, 3], [2, 0, 1, 3]) by { InversesHold(); }
    var t, from := Stacked(inputs, shape), [idx[0], r, idx[1]];
    StackedAt(inputs, shape, r, idx);
    assert Pick(t.shape, [1, 0, 2]) == [shape[0]] + [|inputs|, shape[1]];
    assert Pick(from, [1, 0, 2]) == [r] + idx;
    PermuteAt(t, [1, 0, 2], [1, 0, 2], from);
    assert from == [idx[0]] + [r, idx[1]];
    MergeSecondShape(t);
    MergeTrailing([shape[0]], |inputs|, shape[1], [idx[0]], r, idx[1]);
    assert [shape[0]] + [|inputs| * shape[1]] == [shape[0], |inputs| * shape[1]];
    assert [idx[0]] + [r * shape[1] + idx[1]] == [idx[0], r * shape[1] + idx[1]];
  }

  /** [i][c][r * b + j] of the 3-D result is rank r's [i][c][j]. */
  lemma MergeThirdAt<T>(inputs: seq<Tensor<T>>, shape: seq<nat>, r: nat, idx: seq<nat>)
    requires Alike(inputs, shape) && |shape| == 3 && r < |inputs| && InRange(shape, idx)
    ensures var out := MergeThird(Stacked(inputs, shape)); var to := [idx[0], idx[1], r * shape[2] + idx[2]];
            Valid(out) && InRange(out.shape, to) && At(out, to) == At(inputs[r], idx)
  {
    hide Permute, Offset, Size, Gathered, Stacked, Inverses;
    assert Inverses([1, 0, 2], [1, 0, 2]) && Inverses([1, 2, 0, 3], [2, 0, 1, 3]) by { InversesHold(); }
    var t, from := Stacked(inputs, shape), [idx[0], idx[1], r, idx[2]];
    StackedAt(inputs, shape, r, idx);
    assert Pick(t.shape, [1, 2, 0, 3]) == shape[..2] + [|inputs|, shape[2]];
    assert Pick(from, [2, 0, 1, 3]) == [r] + idx;
    PermuteAt(t, [1, 2, 0, 3], [2, 0, 1, 3], from);
    assert from == idx[..2] + [r, idx[2]];
    MergeThirdShape(t);
    MergeTrailing(shape[..2], |inputs|, shape[2], idx[..2], r, idx[2]);
    assert shape[..2] + [|inputs| * shape[2]] == [shape[0], shape[1], |inputs| * shape[2]];
    assert idx[..2] + [r * shape[2] + idx[2]] == [idx[0], idx[1], r * shape[2] + idx[2]];
  }

  lemma FirstDimensionOffset(shape: seq<nat>, world: nat, r: nat, idx: seq<nat>)
    requires shape != [] && r < world && InRange(shape, idx)
    ensures var whole, to := shape[0 := world * shape[0]], idx[0 := r * shape[0] + idx[0]];
            && InRange(whole, to) && Size(whole) == world * Size(shape)
            && Offset(whole, to) == r * Size(shape) + Offset(shape, idx)
  {
    hide Size, Offset;
    var rest := shape[1..];
    IndexBound(r, world, shape[0], idx[0]);
    assert shape == [shape[0]] + rest && idx == [idx[0]] + idx[1..];
    assert shape[0 := world * shape[0]] == [world * shape[0]] + rest;
    assert idx[0 := r * shape[0] + idx[0]] == [r * shape[0] + idx[0]] + idx[1..];
    OffsetOfCons(shape[0], rest, idx[0], idx[1..]);
    OffsetOfCons(world * shape[0], rest, r * shape[0] + idx[0], idx[1..]);
    MulAssociate(world, shape[0], 0, Size(rest));
    MulAssociate(r, shape[0], idx[0], Size(rest));
  }

  /** A gather on dimension 0 needs no rearranging. */
  lemma FirstDimensionAt<T>(inputs: seq<Tensor<T>>, shape: seq<nat>, r: nat, idx: seq<nat>)
    requires Alike(inputs, shape) && shape != [] && r < |inputs| && InRange(shape, idx)
    ensures var out := Tensor(shape[0 := |inputs| * shape[0]], Gathered(inputs)); var to := Placed(shape, 0, r, idx);
            Valid(out) && InRange(out.shape, to) && At(out, to) == At(inputs[r], idx)
  {
    hide Size, Offset, Gathered;
    OffsetInRange(shape, idx);
    GatheredAt(inputs, Size(shape), r, Offset(shape, idx));
    FirstDimensionOffset(shape, |inputs|, r, idx);
  }

  lemma OffsetOfCons(n: nat, shape: seq<nat>, i: nat, idx: seq<nat>)
    requires |idx| == |shape|
    ensures Size([n] + shape) == n * Size(shape)
            && Offset([n] + shape, [i] + idx) == i * Size(shape) + Offset(shape, idx)
  {
    assert ([n] + shape)[1..] == shape && ([i] + idx)[1..] == idx;
  }

  lemma ConcatShape<T>(inputs: seq<Tensor<T>>, shape: seq<nat>, dim: int)
    requires Alike(inputs, shape) && AllGather(inputs, shape, dim).Ok?
    ensures var out := AllGather(inputs, shape, dim).value; var d := if dim == 0 then 0 else |shape| - 1;
            Valid(out) && out.shape == shape[d := |inputs| * shape[d]]
  {
    var rest := Size(shape[1..]);
    if dim == 0 {
      GatheredLength(inputs, Size(shape));
      assert shape[0 := |inputs| * shape[0]][1..] == shape[1..];
      MulAssociate(|inputs|, shape[0], 0, rest);
    } else if |shape| == 2 {
      MergeSecondShape(Stacked(inputs, shape));
    } else {
      MergeThirdShape(Stacked(inputs, shape));
    }
  }

  /** Which calls succeed, and that they concatenate along the dimension asked for. */
  lemma AllGatherConcatenates<T>(inputs: seq<Tensor<T>>, shape: seq<nat>, dim: int)
    requires Alike(inputs, shape)
    ensures var result := AllGather(inputs, shape, dim);
            && (result.Ok? <==> (dim == 0 && 1 <= |shape|) || (dim == -1 && (|shape| == 2 || |shape| == 3)))
            && (result.Ok? ==> IsConcat(inputs, shape, if dim == 0 then 0 else |shape| - 1, result.value))
  {
    hide Permute, Offset, Size, Gathered, At, MergeSecond, MergeThird;
    var result := AllGather(inputs, shape, dim);
    if result.Ok? {
      var d := if dim == 0 then 0 else |shape| - 1;
      ConcatShape(inputs, shape, dim);
      forall r: nat, idx: seq<nat> | r < |inputs| && InRange(shape, idx)
        ensures InRange(result.value.shape, Placed(shape, d, r, idx))
        ensures At(result.value, Placed(shape, d, r, idx)) == At(inputs[r], idx)
      {
        var to := Placed(shape, d, r, idx);
        if dim == 0 {
          FirstDimensionAt(inputs, shape, r, idx);
        } else if |shape| == 2 {
          assert to == [idx[0], r * shape[1] + idx[1]];
          MergeSecondAt(inputs, shape, r, idx);
        } else {
          assert to == [idx[0], idx[1], r * shape[2] + idx[2]];
          MergeThirdAt(inputs, shape, r, idx);
        }
      }
    }
  }

  /******* A bijection on elements *******/

  /** The position to which rank r's element k goes. */
  function Destination(shape: seq<nat>, world: nat, d: nat, r: nat, k: nat): (q: nat)
    requires d < |shape| && r < world && k < Size(shape)
    ensures q < Size(shape[d := world * shape[d]])
  {
    UnravelInRange(shape, k);
    IndexBound(r, world, shape[d], Unravel(shape, k)[d]);
    OffsetInRange(shape[d := world * shape[d]], Placed(shape, d, r, Unravel(shape, k)));
    Offset(shape[d := world * shape[d]], Placed(shape, d, r, Unravel(shape, k)))
  }

  /** Every element of a concatenation is some rank's, at its destination. */
  lemma DestinationHolds<T>(inputs: seq<Tensor<T>>, shape: seq<nat>, d: nat, out: Tensor<T>, r: nat, k: nat)
    requires Alike(inputs, shape) && d < |shape| && IsConcat(inputs, shape, d, out) && r < |inputs| && k < Size(shape)
    ensures out.data[Destination(shape, |inputs|, d, r, k)] == inputs[r].data[k]
  {
    hide Size, Offset;
    var idx := Unravel(shape, k);
    UnravelInRange(shape, k);
    assert At(out, Placed(shape, d, r, idx)) == At(inputs[r], idx);
  }

  /** No two elements share a destination, and none is left over. */
  lemma DestinationIsBijective(shape: seq<nat>, world: nat, d: nat)
    requires d < |shape|
    ensures forall r: nat, k: nat, s: nat, l: nat |
              r < world && s < world && k < Size(shape) && l < Size(shape)
                && Destination(shape, world, d, r, k) == Destination(shape, world, d, s, l) ::
              r == s && k == l
    ensures forall q: nat | q < Size(shape[d := world * shape[d]]) :: HasSource(shape, world, d, q)
  {
    hide Destination, Size;
    forall r: nat, k: nat, s: nat, l: nat |
      r < world && s < world && k < Size(shape) && l < Size(shape)
        && Destination(shape, world, d, r, k) == Destination(shape, world, d, s, l)
      ensures r == s && k == l
    {
      DestinationInjective(shape, world, d, r, k, s, l);
    }
    forall q: nat | q < Size(shape[d := world * shape[d]]) ensures HasSource(shape, world, d, q) {
      DestinationOnto(shape, world, d, q);
    }
  }

  ghost predicate HasSource(shape: seq<nat>, world: nat, d: nat, q: nat)
    requires d < |shape|
  {
    exists r: nat, k: nat :: r < world && k < Size(shape) && Destination(shape, world, d, r, k) == q
  }

  lemma DestinationUnravels(shape: seq<nat>, world: nat, d: nat, r: nat, k: nat)
    requires d < |shape| && r < world && k < Size(shape)
    ensures InRange(shape, Unravel(shape, k)) && Offset(shape, Unravel(shape, k)) == k
    ensures Unravel(shape[d := world * shape[d]], Destination(shape, world, d, r, k))
            == Placed(shape, d, r, Unravel(shape, k))
  {
    hide Size, Offset, Unravel;
    UnravelInRange(shape, k);
    IndexBound(r, world, shape[d], Unravel(shape, k)[d]);
    OffsetInRange(shape[d := world * shape[d]], Placed(shape, d, r, Unravel(shape, k)));
  }

  lemma PlacedInjective(shape: seq<nat>, d: nat, r: nat, i: seq<nat>, s: nat, j: seq<nat>)
    requires d < |shape| && InRange(shape, i) && InRange(shape, j) && Placed(shape, d, r, i) == Placed(shape, d, s, j)
    ensures r == s && i == j
  {
    IndexUnique(r, shape[d], i[d]);
    IndexUnique(s, shape[d], j[d]);
    assert Placed(shape, d, r, i)[d] == Placed(shape, d, s, j)[d];
    forall e | 0 <= e < |i| ensures i[e] == j[e] {
      assert e != d ==> Placed(shape, d, r, i)[e] == i[e] && Placed(shape, d, s, j)[e] == j[e];
    }
  }

  lemma DestinationInjective(shape: seq<nat>, world: nat, d: nat, r: nat, k: nat, s: nat, l: nat)
    requires d < |shape| && r < world && s < world && k < Size(shape) && l < Size(shape)
    requires Destination(shape, world, d, r, k) == Destination(shape, world, d, s, l)
    ensures r == s && k == l
  {
    hide Size, Offset, Unravel, Destination, Placed;
    DestinationUnravels(shape, world, d, r, k);
    DestinationUnravels(shape, world, d, s, l);
    PlacedInjective(shape, d, r, Unravel(shape, k), s, Unravel(shape, l));
  }

  lemma DestinationOnto(shape: seq<nat>, world: nat, d: nat, q: nat)
    requires d < |shape| && q < Size(shape[d := world * shape[d]])
    ensures HasSource(shape, world, d, q)
  {
    hide Size, Offset;
    var whole := shape[d := world * shape[d]];
    var to := Unravel(whole, q);
    UnravelInRange(whole, q);
    IndexSplit(to[d], world, shape[d]);
    var r, idx := to[d] / shape[d], to[d := to[d] % shape[d]];
    assert InRange(shape, idx) && Placed(shape, d, r, idx) == to;
    OffsetInRange(shape, idx);
    assert Destination(shape, world, d, r, Offset(shape, idx)) == q;
  }

  /** So concatenation along a dimension is one tensor: nothing is left to the implementation. */
  lemma ConcatIsUnique<T>(inputs: seq<Tensor<T>>, shape: seq<nat>, d: nat, a: Tensor<T>, b: Tensor<T>)
    requires Alike(inputs, shape) && d < |shape| && IsConcat(inputs, shape, d, a) && IsConcat(inputs, shape, d, b)
    ensures a == b
  {
    hide Size, Destination, IsConcat;
    ConcatShapes(inputs, shape, d, a);
    ConcatShapes(inputs, shape, d, b);
    forall q | 0 <= q < |a.data| ensures a.data[q] == b.data[q] {
      DestinationOnto(shape, |inputs|, d, q);
      var r: nat, k: nat :| r < |inputs| && k < Size(shape) && Destination(shape, |inputs|, d, r, k) == q;
      DestinationHolds(inputs, shape, d, a, r, k);
      DestinationHolds(inputs, shape, d, b, r, k);
    }
  }

  lemma ConcatShapes<T>(inputs: seq<Tensor<T>>, shape: seq<nat>, d: nat, a: Tensor<T>)
    requires Alike(inputs, shape) && d < |shape| && IsConcat(inputs, shape, d, a)
    ensures a.shape == shape[d := |inputs| * shape[d]] && |a.data| == Size(shape[d := |inputs| * shape[d]])
  {
  }
}
