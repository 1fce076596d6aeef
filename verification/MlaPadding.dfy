/**
 Zero-padding of multi-head latent attention to a fixed kernel layout.

 Weights are rewritten into a larger per-head layout and the attention runs there; the output is
 stripped back. The claim is that nothing the caller sees changes. Rotary embedding, the latent
 RMSNorm, softmax and sigmoid are parameters: only their lengths matter here.
 */
module MlaPadding {
  import opened Sums
  import opened Arith
  import opened Vectors

  /** One attention layout: query/key no-position and rotary widths, value width, latent rank. */
  datatype Dims = Dims(nope: nat, rope: nat, v: nat, lora: nat)
  {
    function Qk(): nat { nope + rope }
  }

  /** w.view(-1, width, cols)[h, j, c], zero outside the matrix. */
  function Entry(w: Mat, width: nat, h: int, j: int, c: int): real
  {
    if 0 <= h * width + j < |w| then At(w[h * width + j], c) else 0.0
  }

  /** Row (h, j) of that view against a vector. */
  function Row(w: Mat, width: nat, h: int, j: int, x: Vec): real
  {
    Sum(|x|, c => Entry(w, width, h, j, c) * At(x, c))
  }

  /** The layout targets are a maximum per axis, so the padded layout covers the native one. */
  predicate Covers(eff: Dims, n: Dims)
  {
    n.nope <= eff.nope && n.rope <= eff.rope && n.v <= eff.v && n.lora <= eff.lora
  }

  /******* Weight layouts *******/

  /** Entry (h, j, c) of the padded query projection, with a gate block of `g` rows per head. */
  function QEntry(w: Mat, n: Dims, eff: Dims, g: nat, h: int, j: int, c: int): real
  {
    if 0 <= j < n.nope then Entry(w, n.Qk() + g, h, j, c)
    else if eff.nope <= j < eff.nope + n.rope then Entry(w, n.Qk() + g, h, n.nope + (j - eff.nope), c)
    else if eff.Qk() <= j < eff.Qk() + g then Entry(w, n.Qk() + g, h, n.Qk() + (j - eff.Qk()), c)
    else 0.0
  }

  /** Entry (h, j, c) of the padded key/value projection. */
  function KvEntry(w: Mat, n: Dims, eff: Dims, h: int, j: int, c: int): real
  {
    if c >= n.lora then 0.0
    else if 0 <= j < n.nope then Entry(w, n.nope + n.v, h, j, c)
    else if eff.nope <= j < eff.nope + n.v then Entry(w, n.nope + n.v, h, n.nope + (j - eff.nope), c)
    else 0.0
  }

  ghost predicate IsPaddedQ(p: Mat, w: Mat, heads: nat, n: Dims, eff: Dims, g: nat, cols: nat)
  {
    && Shaped(p, heads * (eff.Qk() + g), cols)
    && forall h, j, c | 0 <= h < heads && 0 <= j < eff.Qk() + g && 0 <= c < cols ::
         Entry(p, eff.Qk() + g, h, j, c) == QEntry(w, n, eff, g, h, j, c)
  }

  ghost predicate IsPaddedKv(p: Mat, w: Mat, heads: nat, n: Dims, eff: Dims)
  {
    && Shaped(p, heads * (eff.nope + eff.v), eff.lora)
    && forall h, j, c | 0 <= h < heads && 0 <= j < eff.nope + eff.v && 0 <= c < eff.lora ::
         Entry(p, eff.nope + eff.v, h, j, c) == KvEntry(w, n, eff, h, j, c)
  }

  /** Head `h` appended after h finished heads: earlier entries keep their place. */
  lemma AppendHead(p: Mat, block: Mat, width: nat, h: nat, cols: nat)
    requires Shaped(p, h * width, cols) && Shaped(block, width, cols)
    ensures Shaped(p + block, (h + 1) * width, cols)
    ensures forall h', j, c | 0 <= h' < h && 0 <= j < width ::
            Entry(p + block, width, h', j, c) == Entry(p, width, h', j, c)
    ensures forall j, c | 0 <= j < width :: Entry(p + block, width, h, j, c) == At(block[j], c)
  {
    assert (h + 1) * width == h * width + width;
    forall h', j, c | 0 <= h' < h && 0 <= j < width
      ensures Entry(p + block, width, h', j, c) == Entry(p, width, h', j, c)
    {
      IndexBound(h', h, width, j);
    }
  }

  /** out.reshape(heads * width, cols) of a 3-D buffer. */
  method Flatten(out: array3<real>) returns (p: Mat)
    ensures Shaped(p, out.Length0 * out.Length1, out.Length2)
    ensures forall h, j, c | 0 <= h < out.Length0 && 0 <= j < out.Length1 && 0 <= c < out.Length2 ::
              Entry(p, out.Length1, h, j, c) == out[h, j, c]
  {
    p := [];
    for h := 0 to out.Length0
      invariant Shaped(p, h * out.Length1, out.Length2)
      invariant forall h', j, c | 0 <= h' < h && 0 <= j < out.Length1 && 0 <= c < out.Length2 ::
                  Entry(p, out.Length1, h', j, c) == out[h', j, c]
    {
      hide Entry;
      var block := seq(out.Length1, j requires 0 <= j < out.Length1 reads out =>
                              seq(out.Length2, c requires 0 <= c < out.Length2 reads out => out[h, j, c]));
      AppendHead(p, block, out.Length1, h, out.Length2);
      p := p + block;
    }
  }

  /** _pad_q_b_proj_native_to_eff (g == 0) and _pad_fused_q_b_proj_native_to_eff (g == v_head_dim). */
  method PadQ(w: Mat, heads: nat, n: Dims, eff: Dims, g: nat, cols: nat) returns (p: Mat)
    requires Shaped(w, heads * (n.Qk() + g), cols) && Covers(eff, n)
    ensures IsPaddedQ(p, w, heads, n, eff, g, cols)
  {
    hide Entry;
    var nativePh, effPh := n.Qk() + g, eff.Qk() + g;
    var out := new real[heads, effPh, cols]((h, j, c) => 0.0);
    forall h, j, c | 0 <= h < heads && 0 <= j < n.nope && 0 <= c < cols {
      out[h, j, c] := Entry(w, nativePh, h, j, c);
    }
    forall h, j, c | 0 <= h < heads && eff.nope <= j < eff.nope + n.rope && 0 <= c < cols {
      out[h, j, c] := Entry(w, nativePh, h, n.nope + (j - eff.nope), c);
    }
    forall h, j, c | 0 <= h < heads && eff.Qk() <= j < eff.Qk() + g && 0 <= c < cols {
      out[h, j, c] := Entry(w, nativePh, h, n.Qk() + (j - eff.Qk()), c);
    }
    p := Flatten(out);
  }

  /** _pad_kv_b_proj_native_to_eff: both the row blocks and the latent columns grow. */
  method PadKv(w: Mat, heads: nat, n: Dims, eff: Dims) returns (p: Mat)
    requires Shaped(w, heads * (n.nope + n.v), n.lora) && Covers(eff, n)
    ensures IsPaddedKv(p, w, heads, n, eff)
  {
    hide Entry;
    var nativeOut, effOut := n.nope + n.v, eff.nope + eff.v;
    var out := new real[heads, effOut, eff.lora]((h, j, c) => 0.0);
    forall h, j, c | 0 <= h < heads && 0 <= j < n.nope && 0 <= c < n.lora {
      out[h, j, c] := Entry(w, nativeOut, h, j, c);
    }
    forall h, j, c | 0 <= h < heads && eff.nope <= j < eff.nope + n.v && 0 <= c < n.lora {
      out[h, j, c] := Entry(w, nativeOut, h, n.nope + (j - eff.nope), c);
    }
    p := Flatten(out);
  }

  /** _make_padded_weight_loader around PadQ: a native-shaped tensor is padded, any other passes through. */
  ghost predicate LoadsQ(p: Mat, loaded: Mat, heads: nat, n: Dims, eff: Dims, g: nat, cols: nat)
  {
    if Shaped(loaded, heads * (n.Qk() + g), cols) then IsPaddedQ(p, loaded, heads, n, eff, g, cols) else p == loaded
  }

  /** A matrix is determined by its entries in a view. */
  lemma EntriesDetermine(a: Mat, b: Mat, heads: nat, width: nat, cols: nat)
    requires Shaped(a, heads * width, cols) && Shaped(b, heads * width, cols)
    requires forall h, j, c | 0 <= h < heads && 0 <= j < width && 0 <= c < cols ::
             Entry(a, width, h, j, c) == Entry(b, width, h, j, c)
    ensures a == b
  {
    forall r | 0 <= r < heads * width ensures a[r] == b[r] {
      IndexSplit(r, heads, width);
      var h, j := r / width, r % width;
      forall c | 0 <= c < cols ensures a[r][c] == b[r][c] {
        assert Entry(a, width, h, j, c) == Entry(b, width, h, j, c);
      }
    }
  }

  /** Loading what was already loaded changes nothing, so start-up and run-time updates agree. */
  lemma LoadingTwice(p: Mat, p': Mat, w: Mat, heads: nat, n: Dims, eff: Dims, g: nat, cols: nat)
    requires Covers(eff, n) && 0 < heads
    requires IsPaddedQ(p, w, heads, n, eff, g, cols) && LoadsQ(p', p, heads, n, eff, g, cols)
    ensures p' == p
  {
    hide Entry, QEntry;
    var width := n.Qk() + g;
    if Shaped(p, heads * width, cols) {
      MulCancel(heads, width, eff.Qk() + g);
      forall h, j, c | 0 <= h < heads && 0 <= j < width && 0 <= c < cols
        ensures Entry(p', width, h, j, c) == Entry(p, width, h, j, c)
      {
        NothingToPadQ(p, n, eff, g, h, j, c);
      }
      EntriesDetermine(p', p, heads, width, cols);
    }
  }

  lemma NothingToPadQ(p: Mat, n: Dims, eff: Dims, g: nat, h: int, j: int, c: int)
    requires n.nope == eff.nope && n.rope == eff.rope && 0 <= j < n.Qk() + g
    ensures QEntry(p, n, eff, g, h, j, c) == Entry(p, n.Qk() + g, h, j, c)
  {
    hide Entry;
  }

  ghost predicate LoadsKv(p: Mat, loaded: Mat, heads: nat, n: Dims, eff: Dims)
  {
    if Shaped(loaded, heads * (n.nope + n.v), n.lora) then IsPaddedKv(p, loaded, heads, n, eff) else p == loaded
  }

  /** The same for the key/value loader, whose columns grow as well. */
  lemma LoadingTwiceKv(p: Mat, p': Mat, w: Mat, heads: nat, n: Dims, eff: Dims)
    requires Covers(eff, n) && 0 < heads
    requires IsPaddedKv(p, w, heads, n, eff) && LoadsKv(p', p, heads, n, eff)
    ensures p' == p
  {
    hide Entry, KvEntry;
    var width := n.nope + n.v;
    if Shaped(p, heads * width, n.lora) {
      MulCancel(heads, width, eff.nope + eff.v);
      SameColumns(p, heads * width, n.lora, eff.lora);
      forall h, j, c | 0 <= h < heads && 0 <= j < width && 0 <= c < n.lora
        ensures Entry(p', width, h, j, c) == Entry(p, width, h, j, c)
      {
        NothingToPadKv(p, n, eff, h, j, c);
      }
      assert Shaped(p', heads * width, n.lora) by {
        if heads * width > 0 { assert n.lora == eff.lora; }
      }
      EntriesDetermine(p', p, heads, width, n.lora);
    }
  }

  lemma NothingToPadKv(p: Mat, n: Dims, eff: Dims, h: int, j: int, c: int)
    requires n.nope == eff.nope && n.v == eff.v && 0 <= j < n.nope + n.v && c < n.lora
    ensures KvEntry(p, n, eff, h, j, c) == Entry(p, n.nope + n.v, h, j, c)
  {
    hide Entry;
  }

  lemma SameColumns(p: Mat, rows: nat, cols: nat, others: nat)
    requires Shaped(p, rows, cols) && Shaped(p, rows, others)
    ensures rows > 0 ==> cols == others
  {
    if rows > 0 { assert |p[0]| == cols; }
  }

  /******* The wrapper's forward, in any layout *******/

  /** The operations the wrapper calls but does not define. */
  datatype Kernels = Kernels(
    rope: (int, Vec) -> Vec,
    norm: Vec -> Vec,
    softmax: Vec -> Vec,
    sigmoid: real -> real)
  {
    ghost predicate KeepLengths()
    {
      (forall p: int, x: Vec :: |rope(p, x)| == |x|) && (forall x: Vec :: |norm(x)| == |x|)
    }
  }

  /** A cached token: its latent, its shared rotary key (both native width), its position. */
  datatype Token = Token(kvC: Vec, kPe: Vec, pos: int)

  /** F.pad(x, (0, width - |x|)). */
  function Extend(x: Vec, width: nat): Vec
    requires |x| <= width
  {
    x + seq(width - |x|, _ => 0.0)
  }

  /** PartialRMSNorm: only the first `actual` lanes are normalised, the tail passes through. */
  function PartialNorm(k: Kernels, x: Vec, actual: nat): Vec
    requires actual <= |x|
  {
    if |x| == actual then k.norm(x) else k.norm(x[..actual]) + x[actual..]
  }

  /** q_b_proj's rows for one head. */
  function Projected(l: Dims, g: nat, w: Mat, x: Vec, h: int): (q: Vec)
    ensures |q| == l.Qk() && forall j | 0 <= j < |q| :: q[j] == Row(w, l.Qk() + g, h, j, x)
  {
    seq(l.Qk(), j => Row(w, l.Qk() + g, h, j, x))
  }

  /** The slice assignment q[start : start + |r|] = r, then the per-token scale. */
  function AssignAndScale(q: Vec, start: nat, r: Vec, scale: real): (s: Vec)
    requires start + |r| <= |q|
    ensures |s| == |q|
    ensures forall j {:trigger s[j]} | 0 <= j < |q| ::
            s[j] == (if start <= j < start + |r| then r[j - start] else q[j]) * scale
  {
    seq(|q|, j requires 0 <= j < |q| => (if start <= j < start + |r| then r[j - start] else q[j]) * scale)
  }

  /** The query of one head, rotated on the native slice of its rotary slot and scaled. */
  function Query(k: Kernels, l: Dims, n: Dims, g: nat, w: Mat, x: Vec, pos: int, scale: real, h: int): Vec
    requires k.KeepLengths() && Covers(l, n)
  {
    var q := Projected(l, g, w, x, h);
    AssignAndScale(q, l.nope, k.rope(pos, q[l.nope..l.nope + n.rope]), scale)
  }

  /** Lane d of a query's rotary slot. */
  function RopeLane(q: Vec, l: Dims, d: int): real { At(q, l.nope + d) }

  function Gate(l: Dims, g: nat, w: Mat, x: Vec, h: int): (gate: Vec)
    ensures |gate| == g && forall j {:trigger gate[j]} | 0 <= j < g :: gate[j] == Row(w, l.Qk() + g, h, l.Qk() + j, x)
  {
    seq(g, j => Row(w, l.Qk() + g, h, l.Qk() + j, x))
  }

  function Latent(k: Kernels, l: Dims, n: Dims, t: Token): Vec
    requires |t.kvC| == n.lora && Covers(l, n)
  {
    PartialNorm(k, Extend(t.kvC, l.lora), n.lora)
  }

  function KeyPe(k: Kernels, l: Dims, n: Dims, t: Token): Vec
    requires k.KeepLengths() && |t.kPe| == n.rope && Covers(l, n)
  {
    Extend(k.rope(t.pos, t.kPe), l.rope)
  }

  ghost predicate Fits(n: Dims, context: seq<Token>)
  {
    forall i | 0 <= i < |context| :: |context[i].kvC| == n.lora && |context[i].kPe| == n.rope
  }

  /** Query dot key for one head and one cached token, before the attention scale. */
  function Logit(k: Kernels, l: Dims, n: Dims, wKv: Mat, q: Vec, t: Token, h: int): real
    requires k.KeepLengths() && |t.kvC| == n.lora && |t.kPe| == n.rope && Covers(l, n)
  {
    var c, pe := Latent(k, l, n, t), KeyPe(k, l, n, t);
    Sum(l.nope, d => At(q, d) * Row(wKv, l.nope + l.v, h, d, c)) +
    Sum(l.rope, d => RopeLane(q, l, d) * At(pe, d))
  }

  function Logits(k: Kernels, l: Dims, n: Dims, wKv: Mat, q: Vec, context: seq<Token>, h: int, attnScale: real): Vec
    requires k.KeepLengths() && Fits(n, context) && Covers(l, n)
  {
    seq(|context|, i requires 0 <= i < |context| => attnScale * Logit(k, l, n, wKv, q, context[i], h))
  }

  function Value(k: Kernels, l: Dims, n: Dims, wKv: Mat, t: Token, h: int, d: int): real
    requires |t.kvC| == n.lora && Covers(l, n)
  {
    Row(wKv, l.nope + l.v, h, l.nope + d, Latent(k, l, n, t))
  }

  function ValueAt(k: Kernels, l: Dims, n: Dims, wKv: Mat, context: seq<Token>, h: int, d: int, i: int): real
    requires Fits(n, context) && Covers(l, n)
  {
    if 0 <= i < |context| then Value(k, l, n, wKv, context[i], h, d) else 0.0
  }

  /** One head of attention in layout `l`: softmax of the logits over the values, all l.v lanes. */
  function AttendHead(k: Kernels, l: Dims, n: Dims, wKv: Mat, q: Vec, context: seq<Token>, h: int, attnScale: real): Vec
    requires k.KeepLengths() && Fits(n, context) && Covers(l, n)
    ensures |AttendHead(k, l, n, wKv, q, context, h, attnScale)| == l.v
  {
    var p := k.softmax(Logits(k, l, n, wKv, q, context, h, attnScale));
    seq(l.v, d => Sum(|context|, i => At(p, i) * ValueAt(k, l, n, wKv, context, h, d, i)))
  }

  /** What one head feeds o_proj: the first n.v lanes, gated when the gate is fused. */
  function Head(k: Kernels, l: Dims, n: Dims, fused: bool, wQ: Mat, wKv: Mat, x: Vec, pos: int, qScale: real,
                attnScale: real, context: seq<Token>, h: int): Vec
    requires k.KeepLengths() && Fits(n, context) && Covers(l, n)
  {
    var g := if fused then n.v else 0;
    var q := Query(k, l, n, g, wQ, x, pos, qScale, h);
    var o := AttendHead(k, l, n, wKv, q, context, h, attnScale)[..n.v];
    if !fused then o
    else
      var gate := Gate(l, g, wQ, x, h);
      seq(n.v, d => At(o, d) * k.sigmoid(At(gate, d)))
  }

  /******* Padding changes nothing *******/

  lemma PaddedQRow(p: Mat, w: Mat, heads: nat, n: Dims, eff: Dims, g: nat, x: Vec, h: nat, j: nat)
    requires Covers(eff, n) && h < heads && j < eff.Qk() + g
    requires IsPaddedQ(p, w, heads, n, eff, g, |x|)
    ensures Row(p, eff.Qk() + g, h, j, x) ==
            if j < n.nope then Row(w, n.Qk() + g, h, j, x)
            else if eff.nope <= j < eff.nope + n.rope then Row(w, n.Qk() + g, h, n.nope + (j - eff.nope), x)
            else if eff.Qk() <= j then Row(w, n.Qk() + g, h, n.Qk() + (j - eff.Qk()), x)
            else 0.0
  {
    hide Entry, Sum;
    var f := (c: int) => Entry(p, eff.Qk() + g, h, j, c) * At(x, c);
    assert forall c | 0 <= c < |x| :: f(c) == QEntry(w, n, eff, g, h, j, c) * At(x, c);
    if j < n.nope {
      Congruent(|x|, f, c => Entry(w, n.Qk() + g, h, j, c) * At(x, c));
    } else if eff.nope <= j < eff.nope + n.rope {
      Congruent(|x|, f, c => Entry(w, n.Qk() + g, h, n.nope + (j - eff.nope), c) * At(x, c));
    } else if eff.Qk() <= j {
      Congruent(|x|, f, c => Entry(w, n.Qk() + g, h, n.Qk() + (j - eff.Qk()), c) * At(x, c));
    } else {
      Zero(|x|, f);
    }
  }

  /** A padded query: the native one on its two native slices, zero elsewhere. */
  ghost predicate QueryPadded(a: Vec, b: Vec, n: Dims, eff: Dims)
  {
    && (forall d | 0 <= d < n.nope :: At(a, d) == At(b, d))
    && (forall d | n.nope <= d < eff.nope :: At(a, d) == 0.0)
    && (forall d | 0 <= d < n.rope :: RopeLane(a, eff, d) == RopeLane(b, n, d))
    && (forall d | n.rope <= d < eff.rope :: RopeLane(a, eff, d) == 0.0)
  }

  ghost predicate ProjectionPadded(qa: Vec, qb: Vec, n: Dims, eff: Dims)
  {
    && |qa| == eff.Qk() && |qb| == n.Qk()
    && forall j {:trigger qa[j]} | 0 <= j < eff.Qk() ::
         qa[j] == if j < n.nope then At(qb, j)
                  else if eff.nope <= j < eff.nope + n.rope then At(qb, n.nope + (j - eff.nope)) else 0.0
  }

  lemma PaddedProjection(p: Mat, w: Mat, heads: nat, n: Dims, eff: Dims, g: nat, x: Vec, h: nat)
    requires Covers(eff, n) && h < heads
    requires IsPaddedQ(p, w, heads, n, eff, g, |x|)
    ensures ProjectionPadded(Projected(eff, g, p, x, h), Projected(n, g, w, x, h), n, eff)
  {
    hide Entry, Row, IsPaddedQ, Projected;
    var qa, qb := Projected(eff, g, p, x, h), Projected(n, g, w, x, h);
    forall j {:trigger qa[j]} | 0 <= j < eff.Qk()
      ensures qa[j] == if j < n.nope then At(qb, j)
                       else if eff.nope <= j < eff.nope + n.rope then At(qb, n.nope + (j - eff.nope)) else 0.0
    {
      PaddedQRow(p, w, heads, n, eff, g, x, h, j);
    }
  }

  /** Assigning the same rotated slice to both keeps them related: first the lanes without position, then the others. */
  lemma AssignedNope(qa: Vec, qb: Vec, n: Dims, eff: Dims, r: Vec, scale: real, d: nat)
    requires Covers(eff, n) && ProjectionPadded(qa, qb, n, eff) && |r| == n.rope && d < eff.nope
    ensures At(AssignAndScale(qa, eff.nope, r, scale), d)
            == if d < n.nope then At(AssignAndScale(qb, n.nope, r, scale), d) else 0.0
  {
    hide AssignAndScale;
    assert qa[d] == if d < n.nope then At(qb, d) else 0.0;
  }

  lemma AssignedRope(qa: Vec, qb: Vec, n: Dims, eff: Dims, r: Vec, scale: real, d: nat)
    requires Covers(eff, n) && ProjectionPadded(qa, qb, n, eff) && |r| == n.rope && d < eff.rope
    ensures RopeLane(AssignAndScale(qa, eff.nope, r, scale), eff, d)
            == if d < n.rope then RopeLane(AssignAndScale(qb, n.nope, r, scale), n, d) else 0.0
  {
    hide AssignAndScale;
    var i := eff.nope + d;
    assert d >= n.rope ==> qa[i] == 0.0;
  }

  lemma PaddedAssignment(qa: Vec, qb: Vec, n: Dims, eff: Dims, r: Vec, scale: real)
    requires Covers(eff, n) && ProjectionPadded(qa, qb, n, eff) && |r| == n.rope
    ensures QueryPadded(AssignAndScale(qa, eff.nope, r, scale), AssignAndScale(qb, n.nope, r, scale), n, eff)
  {
    hide AssignAndScale, RopeLane;
    var a, b := AssignAndScale(qa, eff.nope, r, scale), AssignAndScale(qb, n.nope, r, scale);
    forall d | 0 <= d < eff.nope ensures At(a, d) == if d < n.nope then At(b, d) else 0.0 {
      AssignedNope(qa, qb, n, eff, r, scale, d);
    }
    forall d | 0 <= d < eff.rope ensures RopeLane(a, eff, d) == if d < n.rope then RopeLane(b, n, d) else 0.0 {
      AssignedRope(qa, qb, n, eff, r, scale, d);
    }
  }

  lemma PaddedQuery(k: Kernels, p: Mat, w: Mat, heads: nat, n: Dims, eff: Dims, g: nat, x: Vec, pos: int, scale: real,
                    h: nat)
    requires k.KeepLengths() && Covers(eff, n) && h < heads
    requires IsPaddedQ(p, w, heads, n, eff, g, |x|)
    ensures QueryPadded(Query(k, eff, n, g, p, x, pos, scale, h), Query(k, n, n, g, w, x, pos, scale, h), n, eff)
  {
    hide Entry, Row, IsPaddedQ, Projected, QueryPadded, AssignAndScale;
    PaddedProjection(p, w, heads, n, eff, g, x, h);
    var qa, qb := Projected(eff, g, p, x, h), Projected(n, g, w, x, h);
    assert qa[eff.nope..eff.nope + n.rope] == qb[n.nope..n.nope + n.rope];
    PaddedAssignment(qa, qb, n, eff, k.rope(pos, qb[n.nope..n.nope + n.rope]), scale);
  }

  lemma PaddedGate(p: Mat, w: Mat, heads: nat, n: Dims, eff: Dims, g: nat, x: Vec, h: nat)
    requires Covers(eff, n) && h < heads
    requires IsPaddedQ(p, w, heads, n, eff, g, |x|)
    ensures Gate(eff, g, p, x, h) == Gate(n, g, w, x, h)
  {
    hide Entry, Row, IsPaddedQ, Gate;
    forall j | 0 <= j < g ensures Gate(eff, g, p, x, h)[j] == Gate(n, g, w, x, h)[j] {
      PaddedQRow(p, w, heads, n, eff, g, x, h, eff.Qk() + j);
    }
  }

  /** The padded latent: the native normed latent, then zeros. */
  lemma PaddedLatent(k: Kernels, n: Dims, eff: Dims, t: Token)
    requires k.KeepLengths() && Covers(eff, n) && |t.kvC| == n.lora
    ensures var a, b := Latent(k, eff, n, t), Latent(k, n, n, t);
            && |a| == eff.lora && |b| == n.lora
            && (forall c | 0 <= c < n.lora :: At(a, c) == At(b, c))
            && (forall c | n.lora <= c < eff.lora :: At(a, c) == 0.0)
  {
    assert Extend(t.kvC, n.lora) == t.kvC;
    assert Extend(t.kvC, eff.lora)[..n.lora] == t.kvC;
  }

  /** A row of the padded key/value projection on the padded latent. */
  lemma PaddedKvRow(k: Kernels, p: Mat, w: Mat, heads: nat, n: Dims, eff: Dims, t: Token, h: nat, j: nat)
    requires k.KeepLengths() && Covers(eff, n) && |t.kvC| == n.lora && h < heads && j < eff.nope + eff.v
    requires IsPaddedKv(p, w, heads, n, eff)
    ensures var a, b := Latent(k, eff, n, t), Latent(k, n, n, t);
            Row(p, eff.nope + eff.v, h, j, a) ==
            if j < n.nope then Row(w, n.nope + n.v, h, j, b)
            else if eff.nope <= j < eff.nope + n.v then Row(w, n.nope + n.v, h, n.nope + (j - eff.nope), b)
            else 0.0
  {
    hide Entry, Sum, Latent;
    PaddedLatent(k, n, eff, t);
    var a, b := Latent(k, eff, n, t), Latent(k, n, n, t);
    var f := (c: int) => Entry(p, eff.nope + eff.v, h, j, c) * At(a, c);
    assert forall c | 0 <= c < eff.lora :: f(c) == KvEntry(w, n, eff, h, j, c) * At(a, c);
    Truncate(n.lora, eff.lora, f);
    if j < n.nope {
      Congruent(n.lora, f, c => Entry(w, n.nope + n.v, h, j, c) * At(b, c));
    } else if eff.nope <= j < eff.nope + n.v {
      Congruent(n.lora, f, c => Entry(w, n.nope + n.v, h, n.nope + (j - eff.nope), c) * At(b, c));
    } else {
      Zero(n.lora, f);
    }
  }

  lemma PaddedKeyPe(k: Kernels, n: Dims, eff: Dims, t: Token)
    requires k.KeepLengths() && |t.kPe| == n.rope && Covers(eff, n)
    ensures var a, b := KeyPe(k, eff, n, t), KeyPe(k, n, n, t);
            && (forall d | 0 <= d < n.rope :: At(a, d) == At(b, d))
            && (forall d | n.rope <= d < eff.rope :: At(a, d) == 0.0)
  {
  }

  /** Every query-key logit is unchanged. */
  lemma PaddedLogit(k: Kernels, p: Mat, w: Mat, heads: nat, n: Dims, eff: Dims, a: Vec, b: Vec, t: Token, h: nat)
    requires k.KeepLengths() && Covers(eff, n) && |t.kvC| == n.lora && |t.kPe| == n.rope && h < heads
    requires IsPaddedKv(p, w, heads, n, eff) && QueryPadded(a, b, n, eff)
    ensures Logit(k, eff, n, p, a, t, h) == Logit(k, n, n, w, b, t, h)
  {
    hide Entry, Row, Sum, Latent, KeyPe, IsPaddedKv;
    var ca, cb := Latent(k, eff, n, t), Latent(k, n, n, t);
    var pa, pb := KeyPe(k, eff, n, t), KeyPe(k, n, n, t);
    var f := (d: int) => At(a, d) * Row(p, eff.nope + eff.v, h, d, ca);
    var f' := (d: int) => At(b, d) * Row(w, n.nope + n.v, h, d, cb);
    forall d | 0 <= d < n.nope ensures f(d) == f'(d) {
      PaddedKvRow(k, p, w, heads, n, eff, t, h, d);
    }
    Truncate(n.nope, eff.nope, f);
    Congruent(n.nope, f, f');
    PaddedKeyPe(k, n, eff, t);
    var e := (d: int) => RopeLane(a, eff, d) * At(pa, d);
    var e' := (d: int) => RopeLane(b, n, d) * At(pb, d);
    Truncate(n.rope, eff.rope, e);
    Congruent(n.rope, e, e');
  }

  /** One value lane is unchanged, and the lanes the layout added are zero. */
  lemma PaddedValue(k: Kernels, p: Mat, w: Mat, heads: nat, n: Dims, eff: Dims, t: Token, h: nat, d: nat)
    requires k.KeepLengths() && Covers(eff, n) && |t.kvC| == n.lora && h < heads && d < eff.v
    requires IsPaddedKv(p, w, heads, n, eff)
    ensures Value(k, eff, n, p, t, h, d) == if d < n.v then Value(k, n, n, w, t, h, d) else 0.0
  {
    hide Entry, Row, Latent, IsPaddedKv;
    PaddedKvRow(k, p, w, heads, n, eff, t, h, eff.nope + d);
  }

  /** Attention in the padded layout: native lanes agree, added lanes are zero. */
  lemma PaddedAttention(k: Kernels, p: Mat, w: Mat, heads: nat, n: Dims, eff: Dims, a: Vec, b: Vec,
                        context: seq<Token>, h: nat, attnScale: real)
    requires k.KeepLengths() && Covers(eff, n) && Fits(n, context) && h < heads
    requires IsPaddedKv(p, w, heads, n, eff)
    requires QueryPadded(a, b, n, eff)
    ensures var oa, ob := AttendHead(k, eff, n, p, a, context, h, attnScale),
            AttendHead(k, n, n, w, b, context, h, attnScale);
            oa[..n.v] == ob == ob[..n.v] && forall d | n.v <= d < eff.v :: oa[d] == 0.0
  {
    hide Entry, Row, Sum, Logit, Value, IsPaddedKv, QueryPadded;
    var la, lb := Logits(k, eff, n, p, a, context, h, attnScale), Logits(k, n, n, w, b, context, h, attnScale);
    forall i | 0 <= i < |context| ensures la[i] == lb[i] {
      PaddedLogit(k, p, w, heads, n, eff, a, b, context[i], h);
    }
    assert la == lb;
    var s := k.softmax(lb);
    var oa, ob := AttendHead(k, eff, n, p, a, context, h, attnScale), AttendHead(k, n, n, w, b, context, h, attnScale);
    forall d | 0 <= d < eff.v ensures oa[d] == if d < n.v then ob[d] else 0.0 {
      forall i | 0 <= i < |context| {
        PaddedValue(k, p, w, heads, n, eff, context[i], h, d);
      }
      var f := (i: int) => At(s, i) * ValueAt(k, eff, n, p, context, h, d, i);
      assert oa[d] == Sum(|context|, f);
      if d < n.v {
        Congruent(|context|, f, i => At(s, i) * ValueAt(k, n, n, w, context, h, d, i));
      } else {
        Zero(|context|, f);
      }
    }
  }

  /** Main result: what a head feeds o_proj is the same vector in the padded layout as natively. */
  lemma PaddingIsInvisible(k: Kernels, heads: nat, n: Dims, eff: Dims, fused: bool, wQ: Mat, wKv: Mat, pQ: Mat,
                           pKv: Mat,
                           x: Vec, pos: int, qScale: real, attnScale: real, context: seq<Token>, h: nat)
    requires k.KeepLengths() && Covers(eff, n) && Fits(n, context) && h < heads
    requires IsPaddedQ(pQ, wQ, heads, n, eff, if fused then n.v else 0, |x|)
    requires IsPaddedKv(pKv, wKv, heads, n, eff)
    ensures Head(k, eff, n, fused, pQ, pKv, x, pos, qScale, attnScale, context, h)
            == Head(k, n, n, fused, wQ, wKv, x, pos, qScale, attnScale, context, h)
  {
    hide Query, Gate, Row, Sum, AttendHead, IsPaddedQ, IsPaddedKv, QueryPadded, Entry;
    var g := if fused then n.v else 0;
    PaddedQuery(k, pQ, wQ, heads, n, eff, g, x, pos, qScale, h);
    PaddedGate(pQ, wQ, heads, n, eff, g, x, h);
    var a, b := Query(k, eff, n, g, pQ, x, pos, qScale, h), Query(k, n, n, g, wQ, x, pos, qScale, h);
    PaddedAttention(k, pKv, wKv, heads, n, eff, a, b, context, h, attnScale);
  }

  /******* What a head is *******/

  function DotProduct(a: Vec, b: Vec): real { Sum(|a|, i => At(a, i) * At(b, i)) }

  /** Rows from..from + count of a matrix against a vector. */
  function Rows(w: Mat, from: nat, count: nat, x: Vec): (r: Vec)
    requires from + count <= |w|
    ensures |r| == count
  {
    seq(count, d requires 0 <= d < count => Sum(|x|, c => At(w[from + d], c) * At(x, c)))
  }

  function Scaled(a: real, x: Vec): (r: Vec)
    ensures |r| == |x|
  {
    seq(|x|, i requires 0 <= i < |x| => a * x[i])
  }

  /** softmax(scale * q K^T) V over whole vectors. */
  function Attention(k: Kernels, q: Vec, keys: seq<Vec>, values: seq<Vec>, width: nat, scale: real): Vec
    requires |keys| == |values|
  {
    var p := k.softmax(seq(|keys|, i requires 0 <= i < |keys| => scale * DotProduct(q, keys[i])));
    seq(width, d => Sum(|values|, i => At(p, i) * (if 0 <= i < |values| then At(values[i], d) else 0.0)))
  }

  /** The head's two query slices, the second rotated, both scaled; `lo` is its first row. */
  function NativeQuery(k: Kernels, n: Dims, wQ: Mat, lo: nat, x: Vec, pos: int, scale: real): Vec
    requires lo + n.Qk() <= |wQ|
  {
    Scaled(scale, Rows(wQ, lo, n.nope, x) + k.rope(pos, Rows(wQ, lo + n.nope, n.rope, x)))
  }

  /** A token's up-projected latent and its rotated shared key, side by side. */
  function NativeKey(k: Kernels, n: Dims, wKv: Mat, lo: nat, t: Token): Vec
    requires lo + n.nope <= |wKv|
  {
    Rows(wKv, lo, n.nope, k.norm(t.kvC)) + k.rope(t.pos, t.kPe)
  }

  function NativeValue(k: Kernels, n: Dims, wKv: Mat, lo: nat, t: Token): (r: Vec)
    requires lo + n.nope + n.v <= |wKv|
    ensures |r| == n.v
  {
    Rows(wKv, lo + n.nope, n.v, k.norm(t.kvC))
  }

  /** Multi-head latent attention as usually written, for the head whose weights begin at rows lo and lo'. */
  function NativeHead(k: Kernels, n: Dims, fused: bool, wQ: Mat, lo: nat, wKv: Mat, lo': nat, x: Vec, pos: int,
                      qScale: real, attnScale: real, context: seq<Token>): Vec
    requires lo + n.Qk() + (if fused then n.v else 0) <= |wQ| && lo' + n.nope + n.v <= |wKv|
  {
    var keys := seq(|context|, i requires 0 <= i < |context| => NativeKey(k, n, wKv, lo', context[i]));
    var values := seq(|context|, i requires 0 <= i < |context| => NativeValue(k, n, wKv, lo', context[i]));
    var o := Attention(k, NativeQuery(k, n, wQ, lo, x, pos, qScale), keys, values, n.v, attnScale);
    if !fused then o else
      var gate := Rows(wQ, lo + n.Qk(), n.v, x);
      seq(n.v, d => At(o, d) * k.sigmoid(At(gate, d)))
  }

  lemma HeadRows(h: nat, heads: nat, width: nat)
    requires h < heads
    ensures 0 <= h * width && h * width + width <= heads * width
  {
    MulMonotone(h + 1, heads, width);
    assert (h + 1) * width == h * width + width;
  }

  lemma RowIsRows(w: Mat, heads: nat, width: nat, h: nat, from: nat, count: nat, x: Vec, d: nat)
    requires h < heads && |w| == heads * width && from + count <= width && d < count
    ensures h * width + from + count <= |w|
    ensures Row(w, width, h, from + d, x) == Rows(w, h * width + from, count, x)[d]
  {
    HeadRows(h, heads, width);
    Congruent(|x|, c => Entry(w, width, h, from + d, c) * At(x, c), c => At(w[h * width + from + d], c) * At(x, c));
  }

  /** A dot product of joined vectors is the sum of the parts' products. */
  lemma DotOfJoined(a: Vec, b: Vec, q: Vec)
    requires |q| == |a| + |b|
    ensures DotProduct(q, a + b)
            == Sum(|a|, d => At(q, d) * At(a, d)) + Sum(|b|, d => At(q, |a| + d) * At(b, d))
  {
    hide Sum;
    var f := (i: int) => At(q, i) * At(a + b, i);
    Split(|a|, |b|, f);
    Congruent(|a|, f, d => At(q, d) * At(a, d));
    Congruent(|b|, i => f(|a| + i), d => At(q, |a| + d) * At(b, d));
  }

  lemma LatentIsNative(k: Kernels, n: Dims, t: Token)
    requires k.KeepLengths() && |t.kvC| == n.lora && |t.kPe| == n.rope
    ensures Latent(k, n, n, t) == k.norm(t.kvC) && KeyPe(k, n, n, t) == k.rope(t.pos, t.kPe)
  {
    assert Extend(t.kvC, n.lora) == t.kvC && Extend(k.rope(t.pos, t.kPe), n.rope) == k.rope(t.pos, t.kPe);
  }

  lemma QueryIsNative(k: Kernels, n: Dims, g: nat, wQ: Mat, heads: nat, x: Vec, pos: int, scale: real, h: nat)
    requires k.KeepLengths() && h < heads && |wQ| == heads * (n.Qk() + g)
    ensures var lo := h * (n.Qk() + g);
            && lo + n.Qk() + g <= |wQ|
            && Query(k, n, n, g, wQ, x, pos, scale, h)
               == NativeQuery(k, n, wQ, lo, x, pos, scale)
  {
    hide Row, Rows;
    var width := n.Qk() + g;
    HeadRows(h, heads, width);
    var lo := h * width;
    var plain, turned := Rows(wQ, lo, n.nope, x), Rows(wQ, lo + n.nope, n.rope, x);
    var q := Projected(n, g, wQ, x, h);
    forall d | 0 <= d < n.nope ensures q[d] == plain[d] { RowIsRows(wQ, heads, width, h, 0, n.nope, x, d); }
    forall d | 0 <= d < n.rope ensures q[n.nope + d] == turned[d] {
      RowIsRows(wQ, heads, width, h, n.nope, n.rope, x, d);
    }
    assert q[n.nope..n.nope + n.rope] == turned;
    var joined := plain + k.rope(pos, turned);
    var r := Query(k, n, n, g, wQ, x, pos, scale, h);
    forall d | 0 <= d < n.Qk() ensures r[d] == Scaled(scale, joined)[d] {
      assert d >= n.nope ==> joined[d] == k.rope(pos, turned)[d - n.nope];
    }
  }

  lemma LogitIsNative(k: Kernels, n: Dims, wKv: Mat, heads: nat, q: Vec, t: Token, h: nat)
    requires k.KeepLengths() && |t.kvC| == n.lora && |t.kPe| == n.rope && h < heads && |q| == n.Qk()
    requires |wKv| == heads * (n.nope + n.v)
    ensures var lo := h * (n.nope + n.v);
            && lo + n.nope + n.v <= |wKv|
            && Logit(k, n, n, wKv, q, t, h)
               == DotProduct(q, NativeKey(k, n, wKv, lo, t))
  {
    hide Sum, Row, Rows, Latent, KeyPe;
    LatentIsNative(k, n, t);
    var width := n.nope + n.v;
    HeadRows(h, heads, width);
    var up, pe := Rows(wKv, h * width, n.nope, k.norm(t.kvC)), k.rope(t.pos, t.kPe);
    DotOfJoined(up, pe, q);
    var f := (d: int) => At(q, d) * Row(wKv, n.nope + n.v, h, d, Latent(k, n, n, t));
    forall d | 0 <= d < n.nope ensures f(d) == At(q, d) * At(up, d) {
      RowIsRows(wKv, heads, width, h, 0, n.nope, k.norm(t.kvC), d);
    }
    Congruent(n.nope, f, d => At(q, d) * At(up, d));
    Congruent(n.rope, d => RopeLane(q, n, d) * At(pe, d), d => At(q, n.nope + d) * At(pe, d));
  }

  lemma ValueIsNative(k: Kernels, n: Dims, wKv: Mat, heads: nat, t: Token, h: nat, d: nat)
    requires k.KeepLengths() && |t.kvC| == n.lora && |t.kPe| == n.rope && h < heads && d < n.v
    requires |wKv| == heads * (n.nope + n.v)
    ensures var lo := h * (n.nope + n.v);
            lo + n.nope + n.v <= |wKv| && Value(k, n, n, wKv, t, h, d) == NativeValue(k, n, wKv, lo, t)[d]
  {
    hide Row, Rows, Latent;
    LatentIsNative(k, n, t);
    HeadRows(h, heads, n.nope + n.v);
    RowIsRows(wKv, heads, n.nope + n.v, h, n.nope, n.v, k.norm(t.kvC), d);
  }

  lemma AttentionIsNative(k: Kernels, n: Dims, wKv: Mat, heads: nat, q: Vec, context: seq<Token>, h: nat, scale: real)
    requires k.KeepLengths() && Fits(n, context) && h < heads && |q| == n.Qk() && |wKv| == heads * (n.nope + n.v)
    ensures var lo := h * (n.nope + n.v);
            && lo + n.nope + n.v <= |wKv|
            && AttendHead(k, n, n, wKv, q, context, h, scale)
               == Attention(k, q, seq(|context|, i requires 0 <= i < |context| => NativeKey(k, n, wKv, lo, context[i])),
                            seq(|context|, i requires 0 <= i < |context| => NativeValue(k, n, wKv, lo, context[i])),
                            n.v, scale)
  {
    hide Sum, Logit, Value, NativeKey, NativeValue, DotProduct;
    var lo := h * (n.nope + n.v);
    HeadRows(h, heads, n.nope + n.v);
    var keys := seq(|context|, i requires 0 <= i < |context| => NativeKey(k, n, wKv, lo, context[i]));
    var values := seq(|context|, i requires 0 <= i < |context| => NativeValue(k, n, wKv, lo, context[i]));
    var logits := seq(|keys|, i requires 0 <= i < |keys| => scale * DotProduct(q, keys[i]));
    forall i | 0 <= i < |context| ensures Logits(k, n, n, wKv, q, context, h, scale)[i] == logits[i] {
      LogitIsNative(k, n, wKv, heads, q, context[i], h);
    }
    assert Logits(k, n, n, wKv, q, context, h, scale) == logits;
    var p := k.softmax(logits);
    var o, o' := AttendHead(k, n, n, wKv, q, context, h, scale), Attention(k, q, keys, values, n.v, scale);
    forall d | 0 <= d < n.v ensures o[d] == o'[d] {
      var f := (i: int) => At(p, i) * ValueAt(k, n, n, wKv, context, h, d, i);
      var f' := (i: int) => At(p, i) * (if 0 <= i < |values| then At(values[i], d) else 0.0);
      forall i | 0 <= i < |context| ensures f(i) == f'(i) { ValueIsNative(k, n, wKv, heads, context[i], h, d); }
      Congruent(|context|, f, f');
    }
  }

  /** The output is latent attention as usually written, on head h of the native weights. */
  ghost predicate IsNativeHead(k: Kernels, n: Dims, fused: bool, wQ: Mat, wKv: Mat, x: Vec, pos: int, qScale: real,
                               attnScale: real, context: seq<Token>, h: nat, out: Vec)
  {
    var g := if fused then n.v else 0;
    var lo, lo' := h * (n.Qk() + g), h * (n.nope + n.v);
    && 0 <= lo && lo + n.Qk() + g <= |wQ| && 0 <= lo' && lo' + n.nope + n.v <= |wKv|
    && out == NativeHead(k, n, fused, wQ, lo, wKv, lo', x, pos, qScale, attnScale, context)
  }

  /** In the native layout a head is that, gated when the gate is fused. */
  lemma HeadIsNative(k: Kernels, heads: nat, n: Dims, fused: bool, wQ: Mat, wKv: Mat, x: Vec, pos: int, qScale: real,
                     attnScale: real, context: seq<Token>, h: nat)
    requires k.KeepLengths() && Fits(n, context) && h < heads && |wKv| == heads * (n.nope + n.v)
    requires |wQ| == heads * (n.Qk() + if fused then n.v else 0)
    ensures IsNativeHead(k, n, fused, wQ, wKv, x, pos, qScale, attnScale, context, h,
                         Head(k, n, n, fused, wQ, wKv, x, pos, qScale, attnScale, context, h))
  {
    hide Row, Rows, Attention, AttendHead, Query, NativeQuery;
    var g := if fused then n.v else 0;
    var width := n.Qk() + g;
    HeadRows(h, heads, width);
    QueryIsNative(k, n, g, wQ, heads, x, pos, qScale, h);
    var q := Query(k, n, n, g, wQ, x, pos, qScale, h);
    assert |q| == n.Qk() by { QueryWidth(k, n, n, g, wQ, x, pos, qScale, h); }
    AttentionIsNative(k, n, wKv, heads, q, context, h, attnScale);
    var o := AttendHead(k, n, n, wKv, q, context, h, attnScale);
    assert o[..n.v] == o;
    if fused { GateIsNative(n, wQ, heads, x, h); }
  }

  lemma GateIsNative(n: Dims, wQ: Mat, heads: nat, x: Vec, h: nat)
    requires h < heads && |wQ| == heads * (n.Qk() + n.v)
    ensures var lo := h * (n.Qk() + n.v);
            0 <= lo && lo + n.Qk() + n.v <= |wQ| && Gate(n, n.v, wQ, x, h) == Rows(wQ, lo + n.Qk(), n.v, x)
  {
    hide Row, Rows;
    var width := n.Qk() + n.v;
    HeadRows(h, heads, width);
    var gate, rows := Gate(n, n.v, wQ, x, h), Rows(wQ, h * width + n.Qk(), n.v, x);
    forall d | 0 <= d < n.v ensures gate[d] == rows[d] { RowIsRows(wQ, heads, width, h, n.Qk(), n.v, x, d); }
  }

  lemma QueryWidth(k: Kernels, l: Dims, n: Dims, g: nat, w: Mat, x: Vec, pos: int, scale: real, h: nat)
    requires k.KeepLengths() && Covers(l, n)
    ensures |Query(k, l, n, g, w, x, pos, scale, h)| == l.Qk()
  {
  }

  /** Padded weights, then, compute latent attention as usually written on the native weights. */
  lemma PaddedHeadIsNative(k: Kernels, heads: nat, n: Dims, eff: Dims, fused: bool, wQ: Mat, wKv: Mat, pQ: Mat,
                           pKv: Mat, x: Vec, pos: int, qScale: real, attnScale: real, context: seq<Token>, h: nat)
    requires k.KeepLengths() && Covers(eff, n) && Fits(n, context) && h < heads && |wKv| == heads * (n.nope + n.v)
    requires |wQ| == heads * (n.Qk() + if fused then n.v else 0)
    requires IsPaddedQ(pQ, wQ, heads, n, eff, if fused then n.v else 0, |x|)
    requires IsPaddedKv(pKv, wKv, heads, n, eff)
    ensures IsNativeHead(k, n, fused, wQ, wKv, x, pos, qScale, attnScale, context, h,
                         Head(k, eff, n, fused, pQ, pKv, x, pos, qScale, attnScale, context, h))
  {
    hide Head, IsNativeHead, IsPaddedQ, IsPaddedKv;
    HeadIsNative(k, heads, n, fused, wQ, wKv, x, pos, qScale, attnScale, context, h);
    PaddingIsInvisible(k, heads, n, eff, fused, wQ, wKv, pQ, pKv, x, pos, qScale, attnScale, context, h);
  }
}
