/**
 Rotary embedding with cos and sin caches duplicated to full width.

 Both styles compute x * cos + rotate(x) * sin over whole vectors. The claims are about what that
 does to pairs of coordinates: it rotates each pair by the position's angle.
 */
module Rope {
  import opened Sums
  import opened Arith
  import opened Vectors
  import opened Options

  datatype Style = Neox | Gptj

  /** The upstream cache as two tables: entry (position, j) for j < half, where rotary_dim == 2 * half. */
  datatype Rope = Rope(style: Style, headSize: nat, half: nat, positions: nat, cos: (int, int) -> real,
                       sin: (int, int) -> real)
  {
    ghost predicate Valid() { 0 < headSize && 2 * half <= headSize }

    /** Rows are points of the unit circle. */
    ghost predicate Unit()
    {
      forall p: nat, j: nat | p < positions && j < half :: OnCircle(cos(p, j), sin(p, j))
    }

    /** Row p + n is row p turned by row n. */
    ghost predicate AnglesAdd()
    {
      forall p: nat, n: nat, j: nat | p + n < positions && j < half :: TurnedBy(p, n, j)
    }

    predicate TurnedBy(p: nat, n: nat, j: nat)
    {
      && cos(p + n, j) == cos(p, j) * cos(n, j) - sin(p, j) * sin(n, j)
      && sin(p + n, j) == sin(p, j) * cos(n, j) + cos(p, j) * sin(n, j)
    }
  }

  predicate OnCircle(c: real, s: real) { c * c + s * s == 1.0 }

  /******* What the patch computes *******/

  /** Column i of the duplicated cache: repeat(1, 2) for neox, stack and reshape for gptj. */
  function Column(style: Style, half: nat, i: nat): nat
    requires i < 2 * half
  {
    if style.Neox? then i % half else i / 2
  }

  function CacheRow(rope: Rope, table: (int, int) -> real, p: nat): (row: seq<real>)
    ensures |row| == 2 * rope.half
    ensures forall i | 0 <= i < 2 * rope.half :: row[i] == table(p, Column(rope.style, rope.half, i))
  {
    seq(2 * rope.half, i requires 0 <= i < 2 * rope.half => table(p, Column(rope.style, rope.half, i)))
  }

  /** cat(-x2, x1) of the two halves. */
  function RotateNeox(x: seq<real>): (r: seq<real>)
    ensures |x| % 2 == 0 ==> |r| == |x|
    ensures |x| % 2 == 0 ==> forall j | 0 <= j < |x| / 2 :: r[j] == -x[|x| / 2 + j] && r[|x| / 2 + j] == x[j]
  {
    var half := |x| / 2;
    seq(|x| - half, i requires 0 <= i < |x| - half => -x[half + i]) + x[..half]
  }

  /** stack(-x2, x1) of the odd and even places. */
  function RotateGptj(x: seq<real>): (r: seq<real>)
    requires |x| % 2 == 0
    ensures |r| == |x|
    ensures forall j | 0 <= j < |x| / 2 :: r[2 * j] == -x[2 * j + 1] && r[2 * j + 1] == x[2 * j]
  {
    seq(|x|, i requires 0 <= i < |x| => if i % 2 == 0 then -x[i + 1] else x[i - 1])
  }

  function Rotate(style: Style, x: seq<real>): (r: seq<real>)
    requires |x| % 2 == 0
    ensures |r| == |x|
  {
    if style.Neox? then RotateNeox(x) else RotateGptj(x)
  }

  function Combine(x: seq<real>, y: seq<real>, cos: seq<real>, sin: seq<real>): (r: seq<real>)
    requires |x| == |y| == |cos| == |sin|
    ensures |r| == |x| && forall i | 0 <= i < |x| :: r[i] == x[i] * cos[i] + y[i] * sin[i]
  {
    seq(|x|, i requires 0 <= i < |x| => x[i] * cos[i] + y[i] * sin[i])
  }

  /** query_rot * cos + rotate_fn(query_rot) * sin */
  function Rotated(rope: Rope, p: nat, x: seq<real>): (r: seq<real>)
    requires |x| == 2 * rope.half
    ensures |r| == |x|
  {
    Combine(x, Rotate(rope.style, x), CacheRow(rope, rope.cos, p), CacheRow(rope, rope.sin, p))
  }

  /** One head: the first rotary_dim places rotate, the rest pass. */
  function Head(rope: Rope, p: nat, x: seq<real>): (r: seq<real>)
    requires rope.Valid() && |x| == rope.headSize
    ensures |r| == |x|
  {
    var rot := Rotated(rope, p, x[..2 * rope.half]);
    if rope.headSize == 2 * rope.half then rot else rot + x[2 * rope.half..]
  }

  /******* Pairs *******/

  function Left(style: Style, half: nat, j: int): int { if style.Neox? then j else 2 * j }

  function Right(style: Style, half: nat, j: int): int { if style.Neox? then half + j else 2 * j + 1 }

  lemma PairColumns(style: Style, half: nat, j: nat)
    requires j < half
    ensures 0 <= Left(style, half, j) < 2 * half && 0 <= Right(style, half, j) < 2 * half
    ensures Column(style, half, Left(style, half, j)) == j == Column(style, half, Right(style, half, j))
  {
    if style.Neox? {
      IndexUnique(0, half, j);
      IndexUnique(1, half, j);
    }
  }

  /** Each pair is rotated by its own angle, in either style. */
  lemma PairRotates(rope: Rope, p: nat, x: seq<real>, j: nat)
    requires |x| == 2 * rope.half && j < rope.half
    ensures var l, r := Left(rope.style, rope.half, j), Right(rope.style, rope.half, j);
            && 0 <= l < |x| && 0 <= r < |x|
            && Rotated(rope, p, x)[l] == x[l] * rope.cos(p, j) - x[r] * rope.sin(p, j)
            && Rotated(rope, p, x)[r] == x[r] * rope.cos(p, j) + x[l] * rope.sin(p, j)
  {
    hide RotateNeox, RotateGptj, Column, CacheRow, Combine;
    PairColumns(rope.style, rope.half, j);
    var y := Rotate(rope.style, x);
    var l, r := Left(rope.style, rope.half, j), Right(rope.style, rope.half, j);
    assert |x| / 2 == rope.half;
    assert y[l] == -x[r] && y[r] == x[l];
  }

  /** The dot product of a pair. */
  function PairDot(style: Style, half: nat, x: seq<real>, y: seq<real>, j: int): real
  {
    var l, r := Left(style, half, j), Right(style, half, j);
    At(x, l) * At(y, l) + At(x, r) * At(y, r)
  }

  function Products(x: seq<real>, y: seq<real>): int -> real { i => At(x, i) * At(y, i) }

  function Dot(x: seq<real>, y: seq<real>): real { Sum(|x|, Products(x, y)) }

  function PairDots(style: Style, half: nat, x: seq<real>, y: seq<real>): int -> real
  {
    j => PairDot(style, half, x, y, j)
  }

  /** A dot product is the sum of its pairs' dot products, in either layout. */
  lemma DotByPairs(style: Style, half: nat, x: seq<real>, y: seq<real>)
    requires |x| == |y| == 2 * half
    ensures Dot(x, y) == Sum(half, PairDots(style, half, x, y))
  {
    hide Sum;
    var f := Products(x, y);
    if style.Neox? {
      Split(half, half, f);
      Add(half, f, i => f(half + i), PairDots(style, half, x, y));
    } else {
      var two: nat := 2;
      Blocks(half, two, f);
      var pair := (b: int) => Sum(two, j => f(b * two + j));
      forall b: int | 0 <= b < half ensures pair(b) == PairDots(style, half, x, y)(b) {
        SumOfTwo(j => f(b * two + j));
      }
      Congruent(half, pair, PairDots(style, half, x, y));
      assert half * 2 == 2 * half;
    }
  }

  lemma SumOfTwo(f: int -> real)
    ensures Sum(2, f) == f(0) + f(1)
  {
    assert Sum(1, f) == f(0);
  }

  /******* Norms and relative positions *******/

  /** Cosine of the angle between rows p and q. */
  function CosBetween(rope: Rope, p: nat, q: nat, j: int): real
  {
    CosOf(rope.cos(p, j), rope.sin(p, j), rope.cos(q, j), rope.sin(q, j))
  }

  function SinBetween(rope: Rope, p: nat, q: nat, j: int): real
  {
    SinOf(rope.cos(p, j), rope.sin(p, j), rope.cos(q, j), rope.sin(q, j))
  }

  function CosOf(cp: real, sp: real, cq: real, sq: real): real { cp * cq + sp * sq }

  function SinOf(cp: real, sp: real, cq: real, sq: real): real { sp * cq - cp * sq }

  function Cross(style: Style, half: nat, x: seq<real>, y: seq<real>, j: int): real
  {
    var l, r := Left(style, half, j), Right(style, half, j);
    At(x, l) * At(y, r) - At(x, r) * At(y, l)
  }

  lemma CrossAlgebra(a: real, b: real, c: real, d: real, cn: real, sn: real)
    ensures (b * cn + a * sn) * (c * cn - d * sn) - (a * cn - b * sn) * (d * cn + c * sn)
            == (cn * cn + sn * sn) * (b * c - a * d)
  {
  }

  lemma RotateAlgebra(a: real, b: real, c: real, d: real, cp: real, sp: real, cq: real, sq: real)
    ensures (a * cp - b * sp) * (c * cq - d * sq) + (b * cp + a * sp) * (d * cq + c * sq)
         == (cp * cq + sp * sq) * (a * c + b * d) + (sp * cq - cp * sq) * (a * d - b * c)
  {
  }

  /** Rotated pairs meet at the angle between their positions. */
  lemma RotatedPairDot(rope: Rope, p: nat, q: nat, x: seq<real>, y: seq<real>, j: nat)
    requires |x| == |y| == 2 * rope.half && j < rope.half
    ensures PairDot(rope.style, rope.half, Rotated(rope, p, x), Rotated(rope, q, y), j)
         == CosBetween(rope, p, q, j) * PairDot(rope.style, rope.half, x, y, j)
           + SinBetween(rope, p, q, j) * Cross(rope.style, rope.half, x, y, j)
  {
    hide Rotated, Left, Right;
    PairRotates(rope, p, x, j);
    PairRotates(rope, q, y, j);
    var l, r := Left(rope.style, rope.half, j), Right(rope.style, rope.half, j);
    RotateAlgebra(x[l], x[r], y[l], y[r], rope.cos(p, j), rope.sin(p, j), rope.cos(q, j), rope.sin(q, j));
  }

  predicate SameAngle(rope: Rope, p: nat, q: nat, p2: nat, q2: nat, j: int)
  {
    CosBetween(rope, p, q, j) == CosBetween(rope, p2, q2, j) && SinBetween(rope, p, q, j) == SinBetween(rope, p2, q2, j)
  }

  /** If the angles between p and q and between p2 and q2 are equal, so are the dot products. */
  lemma SameAnglesSameDot(rope: Rope, p: nat, q: nat, p2: nat, q2: nat, x: seq<real>, y: seq<real>)
    requires |x| == |y| == 2 * rope.half
    requires forall j: nat | j < rope.half :: SameAngle(rope, p, q, p2, q2, j)
    ensures Dot(Rotated(rope, p, x), Rotated(rope, q, y)) == Dot(Rotated(rope, p2, x), Rotated(rope, q2, y))
  {
    hide Dot, Rotated, PairDot, CosBetween, SinBetween, Cross;
    var f := PairDots(rope.style, rope.half, Rotated(rope, p, x), Rotated(rope, q, y));
    var g := PairDots(rope.style, rope.half, Rotated(rope, p2, x), Rotated(rope, q2, y));
    DotByPairs(rope.style, rope.half, Rotated(rope, p, x), Rotated(rope, q, y));
    DotByPairs(rope.style, rope.half, Rotated(rope, p2, x), Rotated(rope, q2, y));
    forall j: int | 0 <= j < rope.half ensures f(j) == g(j) {
      assert SameAngle(rope, p, q, p2, q2, j);
      RotatedPairDot(rope, p, q, x, y, j);
      RotatedPairDot(rope, p2, q2, x, y, j);
    }
    Congruent(rope.half, f, g);
  }

  lemma RotatedKeepsNorm(rope: Rope, p: nat, x: seq<real>)
    requires rope.Unit() && p < rope.positions && |x| == 2 * rope.half
    ensures Dot(Rotated(rope, p, x), Rotated(rope, p, x)) == Dot(x, x)
  {
    hide Dot, Rotated, PairDot;
    var f, g := PairDots(rope.style, rope.half, Rotated(rope, p, x), Rotated(rope, p, x)),
      PairDots(rope.style, rope.half, x, x);
    DotByPairs(rope.style, rope.half, Rotated(rope, p, x), Rotated(rope, p, x));
    DotByPairs(rope.style, rope.half, x, x);
    forall j: nat | j < rope.half ensures f(j) == g(j) {
      RotatedPairDot(rope, p, p, x, x, j);
      assert OnCircle(rope.cos(p, j), rope.sin(p, j));
    }
    Congruent(rope.half, f, g);
  }

  lemma TurnAlgebra(cp: real, sp: real, cq: real, sq: real, cn: real, sn: real, cp2: real, sp2: real, cq2: real,
                    sq2: real)
    requires OnCircle(cn, sn) && cp2 == cp * cn - sp * sn && sp2 == sp * cn + cp * sn && cq2 == cq * cn - sq * sn
             && sq2 == sq * cn + cq * sn
    ensures CosOf(cp2, sp2, cq2, sq2) == CosOf(cp, sp, cq, sq)
    ensures SinOf(cp2, sp2, cq2, sq2) == SinOf(cp, sp, cq, sq)
  {
    var k := cn * cn + sn * sn;
    assert cp2 * cq2 + sp2 * sq2 == k * (cp * cq + sp * sq) by { RotateAlgebra(cp, sp, cq, sq, cn, sn, cn, sn); }
    assert sp2 * cq2 - cp2 * sq2 == k * (sp * cq - cp * sq) by { CrossAlgebra(cp, sp, cq, sq, cn, sn); }
    Unscale(k, cp * cq + sp * sq);
    Unscale(k, sp * cq - cp * sq);
  }

  lemma Unscale(k: real, x: real)
    ensures k == 1.0 ==> k * x == x
  {
  }

  /** Shifting both positions leaves the angle between them. */
  lemma ShiftKeepsAngle(rope: Rope, p: nat, q: nat, n: nat, j: nat)
    requires rope.Unit() && rope.AnglesAdd() && p + n < rope.positions && q + n < rope.positions && j < rope.half
    ensures SameAngle(rope, p + n, q + n, p, q, j)
  {
    hide CosOf, SinOf;
    assert rope.TurnedBy(p, n, j) && rope.TurnedBy(q, n, j) && OnCircle(rope.cos(n, j), rope.sin(n, j));
    TurnAlgebra(rope.cos(p, j), rope.sin(p, j), rope.cos(q, j), rope.sin(q, j), rope.cos(n, j), rope.sin(n, j),
                rope.cos(p + n, j), rope.sin(p + n, j), rope.cos(q + n, j), rope.sin(q + n, j));
  }

  /******* Whole heads *******/

  /** A head's dot product: its rotary part plus its pass-through part. */
  lemma HeadDot(n: nat, x: seq<real>, y: seq<real>)
    requires n <= |x| == |y|
    ensures Dot(x, y) == Dot(x[..n], y[..n]) + Dot(x[n..], y[n..])
  {
    hide Sum;
    var f := Products(x, y);
    Split(n, |x| - n, f);
    assert n + (|x| - n) == |x|;
    Congruent(n, f, Products(x[..n], y[..n]));
    Congruent(|x| - n, i => f(n + i), Products(x[n..], y[n..]));
  }

  lemma HeadParts(rope: Rope, p: nat, x: seq<real>)
    requires rope.Valid() && |x| == rope.headSize
    ensures Head(rope, p, x)[..2 * rope.half] == Rotated(rope, p, x[..2 * rope.half])
    ensures Head(rope, p, x)[2 * rope.half..] == x[2 * rope.half..]
  {
  }

  lemma HeadKeepsNorm(rope: Rope, p: nat, x: seq<real>)
    requires rope.Valid() && rope.Unit() && p < rope.positions && |x| == rope.headSize
    ensures Dot(Head(rope, p, x), Head(rope, p, x)) == Dot(x, x)
  {
    hide Dot, Rotated, Head;
    var n := 2 * rope.half;
    HeadParts(rope, p, x);
    HeadDot(n, x, x);
    HeadDot(n, Head(rope, p, x), Head(rope, p, x));
    RotatedKeepsNorm(rope, p, x[..n]);
  }

  /** A rotated query and key meet the same wherever the pair of positions is shifted to. */
  lemma HeadsAreRelative(rope: Rope, p: nat, q: nat, n: nat, x: seq<real>, y: seq<real>)
    requires rope.Valid() && rope.Unit() && rope.AnglesAdd() && p + n < rope.positions && q + n < rope.positions
    requires |x| == |y| == rope.headSize
    ensures Dot(Head(rope, p + n, x), Head(rope, q + n, y)) == Dot(Head(rope, p, x), Head(rope, q, y))
  {
    hide Dot, Rotated, Head, SameAngle;
    var m := 2 * rope.half;
    HeadParts(rope, p, x);
    HeadParts(rope, q, y);
    HeadParts(rope, p + n, x);
    HeadParts(rope, q + n, y);
    HeadDot(m, Head(rope, p, x), Head(rope, q, y));
    HeadDot(m, Head(rope, p + n, x), Head(rope, q + n, y));
    var p2, q2 := p + n, q + n;
    forall j: nat | j < rope.half ensures SameAngle(rope, p2, q2, p, q, j) { ShiftKeepsAngle(rope, p, q, n, j); }
    SameAnglesSameDot(rope, p + n, q + n, p, q, x[..m], y[..m]);
  }

  /******* The two layouts *******/

  /** Even places first, then odd places: the interleaved layout rewritten as the half-split one. */
  function HalfSplit(x: seq<real>): (r: seq<real>)
    requires |x| % 2 == 0
    ensures |r| == |x|
    ensures forall i | 0 <= i < |x| :: r[i] == if i < |x| / 2 then x[2 * i] else x[2 * (i - |x| / 2) + 1]
  {
    seq(|x|, i requires 0 <= i < |x| => if i < |x| / 2 then x[2 * i] else x[2 * (i - |x| / 2) + 1])
  }

  /** Rotating the half-split vector neox style is half-splitting the vector rotated gptj style. */
  lemma LayoutsConjugate(rope: Rope, p: nat, x: seq<real>)
    requires rope.style.Gptj? && |x| == 2 * rope.half
    ensures Rotated(rope.(style := Neox), p, HalfSplit(x)) == HalfSplit(Rotated(rope, p, x))
  {
    hide Rotated, HalfSplit;
    var neox, half := rope.(style := Neox), rope.half;
    var left, right := Rotated(neox, p, HalfSplit(x)), HalfSplit(Rotated(rope, p, x));
    assert |x| / 2 == half;
    forall i | 0 <= i < 2 * half ensures left[i] == right[i] {
      var j := if i < half then i else i - half;
      PairRotates(neox, p, HalfSplit(x), j);
      PairRotates(rope, p, x, j);
    }
  }

  /******* The forward pass *******/

  /** Rows per token, heads per row. */
  type Heads = seq<seq<seq<real>>>

  ghost predicate Shaped(rope: Rope, x: Heads, tokens: nat)
  {
    |x| == tokens && forall t, h | 0 <= t < tokens && 0 <= h < |x[t]| :: |x[t][h]| == rope.headSize
  }

  /** positions + offsets, as cache rows. */
  function Positions(positions: seq<int>, offsets: Option<seq<int>>): (r: seq<int>)
    requires offsets.Some? ==> |offsets.value| == |positions|
    ensures |r| == |positions|
    ensures forall t | 0 <= t < |r| :: r[t] == positions[t] + if offsets.Some? then offsets.value[t] else 0
  {
    seq(|positions|, t requires 0 <= t < |positions| => positions[t] + if offsets.Some? then offsets.value[t] else 0)
  }

  function RotateAll(rope: Rope, rows: seq<int>, x: Heads): (r: Heads)
    requires rope.Valid() && Shaped(rope, x, |rows|) && forall t | 0 <= t < |rows| :: 0 <= rows[t] < rope.positions
    ensures Shaped(rope, r, |rows|) && forall t | 0 <= t < |rows| :: |r[t]| == |x[t]|
    ensures forall t, h | 0 <= t < |rows| && 0 <= h < |x[t]| :: r[t][h] == Head(rope, rows[t], x[t][h])
  {
    seq(|rows|, t requires 0 <= t < |rows| => seq(|x[t]|, h requires 0 <= h < |x[t]| => Head(rope, rows[t], x[t][h])))
  }

  /** forward_oot; a position without a cache row is index_select's error. */
  function Forward(rope: Rope, positions: seq<int>, offsets: Option<seq<int>>, query: Heads, key: Heads)
    : Option<(Heads, Heads)>
    requires rope.Valid() && Shaped(rope, query, |positions|) && Shaped(rope, key, |positions|)
    requires offsets.Some? ==> |offsets.value| == |positions|
  {
    var rows := Positions(positions, offsets);
    if forall t | 0 <= t < |rows| :: 0 <= rows[t] < rope.positions
    then Some((RotateAll(rope, rows, query), RotateAll(rope, rows, key)))
    else None
  }

  /** Places l and r of x, turned by the angle of cache entry (p, j). */
  predicate Turned(rope: Rope, p: int, j: nat, x: seq<real>, y: seq<real>, l: nat, r: nat)
  {
    && l < |x| == |y| && r < |x|
    && y[l] == x[l] * rope.cos(p, j) - x[r] * rope.sin(p, j)
    && y[r] == x[r] * rope.cos(p, j) + x[l] * rope.sin(p, j)
  }

  /** Neox pairs place j with half + j, gptj 2j with 2j + 1. */
  predicate TurnedPair(rope: Rope, p: int, j: nat, x: seq<real>, y: seq<real>)
  {
    if rope.style.Neox? then Turned(rope, p, j, x, y, j, rope.half + j) else Turned(rope, p, j, x, y, 2 * j, 2 * j + 1)
  }

  /** A head turned pair by pair, its other places as they were. */
  ghost predicate TurnedHead(rope: Rope, p: int, x: seq<real>, y: seq<real>)
  {
    && |y| == |x|
    && (forall j: nat | j < rope.half :: TurnedPair(rope, p, j, x, y))
    && forall i | 2 * rope.half <= i < |x| :: y[i] == x[i]
  }

  function OffsetAt(offsets: Option<seq<int>>, t: nat): int
    requires offsets.Some? ==> t < |offsets.value|
  {
    if offsets.Some? then offsets.value[t] else 0
  }

  ghost predicate TurnedHeads(rope: Rope, positions: seq<int>, offsets: Option<seq<int>>, x: Heads, y: Heads)
    requires offsets.Some? ==> |offsets.value| == |positions|
  {
    && |y| == |x| == |positions| && (forall t | 0 <= t < |x| :: |y[t]| == |x[t]|)
    && forall t, h | 0 <= t < |x| && 0 <= h < |x[t]| ::
         TurnedHead(rope, positions[t] + OffsetAt(offsets, t), x[t][h], y[t][h])
  }

  lemma HeadPlaces(rope: Rope, p: nat, x: seq<real>, i: nat)
    requires rope.Valid() && i < |x| == rope.headSize
    ensures Head(rope, p, x)[i] == if i < 2 * rope.half then Rotated(rope, p, x[..2 * rope.half])[i] else x[i]
  {
    hide Rotated;
  }

  lemma PairTurns(rope: Rope, p: nat, x: seq<real>, j: nat)
    requires rope.Valid() && |x| == rope.headSize && j < rope.half
    ensures Turned(rope, p, j, x, Head(rope, p, x), Left(rope.style, rope.half, j), Right(rope.style, rope.half, j))
  {
    hide Rotated, Head, Left, Right;
    var l, r := Left(rope.style, rope.half, j), Right(rope.style, rope.half, j);
    var rot := x[..2 * rope.half];
    PairRotates(rope, p, rot, j);
    HeadPlaces(rope, p, x, l);
    HeadPlaces(rope, p, x, r);
    assert rot[l] == x[l] && rot[r] == x[r];
  }

  lemma HeadTurns(rope: Rope, p: nat, x: seq<real>)
    requires rope.Valid() && |x| == rope.headSize
    ensures TurnedHead(rope, p, x, Head(rope, p, x))
  {
    hide Rotated, Head, Turned;
    forall i | 2 * rope.half <= i < |x| ensures Head(rope, p, x)[i] == x[i] { HeadPlaces(rope, p, x, i); }
    forall j: nat | j < rope.half ensures TurnedPair(rope, p, j, x, Head(rope, p, x)) { PairTurns(rope, p, x, j); }
  }

  lemma AllTurn(rope: Rope, positions: seq<int>, offsets: Option<seq<int>>, x: Heads)
    requires rope.Valid() && Shaped(rope, x, |positions|) && (offsets.Some? ==> |offsets.value| == |positions|)
    requires forall t | 0 <= t < |positions| :: 0 <= positions[t] + OffsetAt(offsets, t) < rope.positions
    ensures forall t | 0 <= t < |positions| :: 0 <= Positions(positions, offsets)[t] < rope.positions
    ensures TurnedHeads(rope, positions, offsets, x, RotateAll(rope, Positions(positions, offsets), x))
  {
    hide TurnedHead, Head, RotateAll;
    var rows := Positions(positions, offsets);
    assert forall t | 0 <= t < |positions| :: rows[t] == positions[t] + OffsetAt(offsets, t);
    forall t, h | 0 <= t < |x| && 0 <= h < |x[t]|
      ensures TurnedHead(rope, rows[t], x[t][h], Head(rope, rows[t], x[t][h]))
    {
      HeadTurns(rope, rows[t], x[t][h]);
    }
  }

  /** Every pair of every head of every token is turned by its own angle, in query and key alike. */
  lemma ForwardTurns(rope: Rope, positions: seq<int>, offsets: Option<seq<int>>, query: Heads, key: Heads)
    requires rope.Valid() && Shaped(rope, query, |positions|) && Shaped(rope, key, |positions|)
    requires offsets.Some? ==> |offsets.value| == |positions|
    ensures var out := Forward(rope, positions, offsets, query, key);
            && (out.None? <==> exists t | 0 <= t < |positions| ::
                  !(0 <= positions[t] + OffsetAt(offsets, t) < rope.positions))
            && (out.Some? ==> TurnedHeads(rope, positions, offsets, query, out.value.0)
                              && TurnedHeads(rope, positions, offsets, key, out.value.1))
  {
    hide TurnedHeads, RotateAll;
    var rows := Positions(positions, offsets);
    assert forall t | 0 <= t < |positions| :: rows[t] == positions[t] + OffsetAt(offsets, t);
    if Forward(rope, positions, offsets, query, key).Some? {
      AllTurn(rope, positions, offsets, query);
      AllTurn(rope, positions, offsets, key);
    }
  }

  /** Rotation keeps every query and key head's norm, and what lies past rotary_dim. */
  lemma ForwardKeepsNorms(rope: Rope, positions: seq<int>, offsets: Option<seq<int>>, query: Heads, key: Heads)
    requires rope.Valid() && rope.Unit() && Shaped(rope, query, |positions|) && Shaped(rope, key, |positions|)
    requires offsets.Some? ==> |offsets.value| == |positions|
    requires Forward(rope, positions, offsets, query, key).Some?
    ensures var (q, k) := Forward(rope, positions, offsets, query, key).value;
            KeepsNorms(rope, query, q) && KeepsNorms(rope, key, k)
  {
    var rows := Positions(positions, offsets);
    AllKeepNorms(rope, rows, query);
    AllKeepNorms(rope, rows, key);
  }

  ghost predicate KeepsNorms(rope: Rope, x: Heads, r: Heads)
    requires rope.Valid()
  {
    && |r| == |x| && Shaped(rope, x, |x|) && Shaped(rope, r, |x|) && (forall t | 0 <= t < |x| :: |r[t]| == |x[t]|)
    && forall t, h | 0 <= t < |x| && 0 <= h < |x[t]| ::
         Dot(r[t][h], r[t][h]) == Dot(x[t][h], x[t][h]) && r[t][h][2 * rope.half..] == x[t][h][2 * rope.half..]
  }

  lemma AllKeepNorms(rope: Rope, rows: seq<int>, x: Heads)
    requires rope.Valid() && rope.Unit() && Shaped(rope, x, |rows|) && forall t | 0 <= t < |rows| ::
             0 <= rows[t] < rope.positions
    ensures KeepsNorms(rope, x, RotateAll(rope, rows, x))
  {
    hide Dot, Head, RotateAll;
    forall t, h | 0 <= t < |rows| && 0 <= h < |x[t]|
      ensures Dot(Head(rope, rows[t], x[t][h]), Head(rope, rows[t], x[t][h])) == Dot(x[t][h], x[t][h])
      ensures Head(rope, rows[t], x[t][h])[2 * rope.half..] == x[t][h][2 * rope.half..]
    {
      HeadKeepsNorm(rope, rows[t], x[t][h]);
      HeadParts(rope, rows[t], x[t][h]);
    }
  }

  /** Offsetting every token by n changes no query-key product: only position differences count. */
  lemma OffsetsLeaveScores(rope: Rope, positions: seq<int>, n: nat, query: Heads, key: Heads, t: nat, h: nat, u: nat,
                           g: nat)
    requires rope.Valid() && rope.Unit() && rope.AnglesAdd() && Shaped(rope, query, |positions|)
             && Shaped(rope, key, |positions|)
    requires Forward(rope, positions, None, query, key).Some?
    requires Forward(rope, positions, Some(seq(|positions|, _ => n)), query, key).Some?
    requires t < |positions| && u < |positions| && h < |query[t]| && g < |key[u]|
    ensures var (q, k) := Forward(rope, positions, None, query, key).value;
            var (q2, k2) := Forward(rope, positions, Some(seq(|positions|, _ => n)), query, key).value;
            Dot(q2[t][h], k2[u][g]) == Dot(q[t][h], k[u][g])
  {
    hide Dot, Head, RotateAll;
    var rows, moved := Positions(positions, None), Positions(positions, Some(seq(|positions|, _ => n)));
    assert moved[t] == rows[t] + n && moved[u] == rows[u] + n;
    HeadsAreRelative(rope, rows[t], rows[u], n, query[t][h], key[u][g]);
  }
}
