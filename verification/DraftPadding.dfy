/**
 Padding per-request draft tokens to one length, by scattering the flat input to computed destinations.
 */
module DraftPadding {
  import opened Options
  import opened Arith

  datatype Error = NoRequests | MaxLenTooSmall

  function Max(counts: seq<nat>): (m: nat)
    requires counts != []
    ensures forall r | 0 <= r < |counts| :: counts[r] <= m
    ensures exists r :: 0 <= r < |counts| && counts[r] == m
  {
    var n := |counts| - 1;
    if n == 0 then counts[0]
    else
      var m := Max(counts[..n]);
      if counts[n] <= m then (var r :| 0 <= r < n && counts[..n][r] == m; assert counts[r] == m; m) else counts[n]
  }

  /** The input position of request r's first token. */
  function Start(counts: seq<nat>, r: nat): nat
    requires r <= |counts|
  {
    if r == 0 then 0 else Start(counts, r - 1) + counts[r - 1]
  }

  /** num_scheduled_tokens.cumsum(0) */
  function CumSum(counts: seq<nat>): seq<nat> { seq(|counts|, r requires 0 <= r < |counts| => Start(counts, r + 1)) }

  /** torch.repeat_interleave(arange(n), counts): each request's number, once per token. */
  function RequestIndices(counts: seq<nat>): seq<nat>
  {
    if counts == [] then [] else RequestIndices(counts[..|counts| - 1]) + seq(counts[|counts| - 1], _ => |counts| - 1)
  }

  lemma {:induction false} StartOfPrefix(counts: seq<nat>, n: nat, r: nat)
    requires r <= n <= |counts|
    ensures Start(counts[..n], r) == Start(counts, r)
  {
    if r > 0 { StartOfPrefix(counts, n, r - 1); }
  }

  lemma {:induction false} StartMonotone(counts: seq<nat>, r: nat, s: nat)
    requires r <= s <= |counts|
    ensures Start(counts, r) <= Start(counts, s)
  {
    if r < s { StartMonotone(counts, r, s - 1); }
  }

  /** Token j of request r lies at Start(r) + j, and is numbered r. */
  lemma {:induction false} RequestOf(counts: seq<nat>, r: nat, j: nat)
    ensures |RequestIndices(counts)| == Start(counts, |counts|)
    ensures r < |counts| && j < counts[r] ==>
      Start(counts, r) + j < |RequestIndices(counts)| && RequestIndices(counts)[Start(counts, r) + j] == r
  {
    if counts != [] {
      var n := |counts| - 1;
      RequestOf(counts[..n], r, j);
      StartOfPrefix(counts, n, n);
      if r < n { StartOfPrefix(counts, n, r); }
    }
  }

  /** Every input position is some request's token. */
  lemma {:induction false} TokenAt(counts: seq<nat>, n: nat, k: nat) returns (r: nat, j: nat)
    requires n <= |counts| && k < Start(counts, n)
    ensures r < n && j < counts[r] && k == Start(counts, r) + j
  {
    if k >= Start(counts, n - 1) {
      r, j := n - 1, k - Start(counts, n - 1);
    } else {
      r, j := TokenAt(counts, n - 1, k);
    }
  }

  /** req * max_sched + (k - cumsum[req] + counts[req]) for every token k. */
  function Destinations(counts: seq<nat>, width: nat): (d: seq<int>)
    ensures |d| == |RequestIndices(counts)|
  {
    RequestOf(counts, 0, 0);
    seq(|RequestIndices(counts)|, k requires 0 <= k < |RequestIndices(counts)| => Destination(counts, width, k))
  }

  function Destination(counts: seq<nat>, width: nat, k: nat): int
    requires k < |RequestIndices(counts)|
  {
    var r := RequestIndices(counts)[k];
    IndicesInRange(counts, k);
    r * width + (k - CumSum(counts)[r] + counts[r])
  }

  lemma IndicesInRange(counts: seq<nat>, k: nat)
    requires k < |RequestIndices(counts)|
    ensures RequestIndices(counts)[k] < |counts|
  {
    RequestOf(counts, 0, 0);
    var r, j := TokenAt(counts, |counts|, k);
    RequestOf(counts, r, j);
  }

  /** Token j of request r goes to slot j of row r. */
  lemma DestinationOf(counts: seq<nat>, width: nat, r: nat, j: nat)
    requires r < |counts| && j < counts[r]
    ensures Start(counts, r) + j < |Destinations(counts, width)|
    ensures Destinations(counts, width)[Start(counts, r) + j] == r * width + j
  {
    RequestOf(counts, r, j);
  }

  /** Destinations climb strictly and stay inside the padded output. */
  lemma DestinationsClimb(counts: seq<nat>, width: nat, k: nat, l: nat)
    requires forall r | 0 <= r < |counts| :: counts[r] <= width
    requires k <= l < |Destinations(counts, width)|
    ensures 0 <= Destinations(counts, width)[k] <= Destinations(counts, width)[l] < |counts| * width
    ensures k < l ==> Destinations(counts, width)[k] < Destinations(counts, width)[l]
  {
    hide Destinations;
    RequestOf(counts, 0, 0);
    var r, i := TokenAt(counts, |counts|, k);
    var s, j := TokenAt(counts, |counts|, l);
    DestinationOf(counts, width, r, i);
    DestinationOf(counts, width, s, j);
    IndexBound(r, |counts|, width, i);
    IndexBound(s, |counts|, width, j);
    if s < r { StartMonotone(counts, s + 1, r); }
    if r < s { IndexBound(r, s, width, i); }
  }

  /** What slot j of row r must hold. */
  function Cell(ids: seq<int>, counts: seq<nat>, r: nat, j: nat): int
    requires r < |counts|
  {
    if j < counts[r] && Start(counts, r) + j < |ids| then ids[Start(counts, r) + j] else 0
  }

  /** Row r is request r's tokens and then zeros. */
  ghost predicate Padded(out: seq<int>, ids: seq<int>, counts: seq<nat>, width: nat)
  {
    |out| == |counts| * width && forall r: nat, j: nat | r < |counts| && j < width ::
      SlotHolds(out, ids, counts, width, r, j)
  }

  ghost predicate SlotHolds(out: seq<int>, ids: seq<int>, counts: seq<nat>, width: nat, r: nat, j: nat)
    requires r < |counts|
  {
    0 <= r * width + j < |out| && out[r * width + j] == Cell(ids, counts, r, j)
  }

  /** Past a row's tokens there are only zeros. */
  lemma ZerosFollow(out: seq<int>, ids: seq<int>, counts: seq<nat>, width: nat, r: nat, j: nat)
    requires Padded(out, ids, counts, width) && r < |counts| && counts[r] <= j < width
    ensures 0 <= r * width + j < |out| && out[r * width + j] == 0
  {
    assert SlotHolds(out, ids, counts, width, r, j);
  }

  /** The padded rows cut back to their counts, end to end. */
  function Unpad(out: seq<int>, counts: seq<nat>, width: nat, n: nat): seq<int>
    requires n <= |counts| && n * width <= |out| && forall r | 0 <= r < n :: counts[r] <= width
  {
    if n == 0 then []
    else
      assert n * width == (n - 1) * width + width;
      Unpad(out, counts, width, n - 1) + out[(n - 1) * width..(n - 1) * width + counts[n - 1]]
  }

  lemma RowTokens(out: seq<int>, ids: seq<int>, counts: seq<nat>, width: nat, r: nat)
    requires Padded(out, ids, counts, width) && r < |counts| && counts[r] <= width && Start(counts, r + 1) <= |ids|
    ensures 0 <= r * width && r * width + counts[r] <= |out|
    ensures out[r * width..r * width + counts[r]] == ids[Start(counts, r)..Start(counts, r + 1)]
  {
    if counts[r] == 0 {
      IndexEdge(r, |counts|, width);
    } else {
      IndexBound(r, |counts|, width, counts[r] - 1);
    }
    var row, tokens := out[r * width..r * width + counts[r]], ids[Start(counts, r)..Start(counts, r + 1)];
    forall j: nat | j < counts[r] ensures row[j] == tokens[j] {
      assert SlotHolds(out, ids, counts, width, r, j);
    }
  }

  lemma IndexEdge(r: nat, rows: nat, width: nat)
    requires r < rows
    ensures 0 <= r * width <= rows * width
  {
    MulMonotone(r, rows, width);
  }

  lemma UnpadLast(out: seq<int>, counts: seq<nat>, width: nat, m: nat)
    requires m < |counts| && (m + 1) * width <= |out| && forall r | 0 <= r < |counts| :: counts[r] <= width
    ensures 0 <= m * width && m * width + width <= |out|
    ensures Unpad(out, counts, width, m + 1) == Unpad(out, counts, width, m) + out[m * width..m * width + counts[m]]
  {
    assert (m + 1) * width == m * width + width;
  }

  lemma {:induction false} UnpadRecovers(out: seq<int>, ids: seq<int>, counts: seq<nat>, width: nat, n: nat)
    requires Padded(out, ids, counts, width) && |ids| == Start(counts, |counts|) && n <= |counts|
    requires n * width <= |out| && forall r | 0 <= r < |counts| :: counts[r] <= width
    ensures Start(counts, n) <= |ids| && Unpad(out, counts, width, n) == ids[..Start(counts, n)]
  {
    hide Padded;
    StartMonotone(counts, n, |counts|);
    if n > 0 {
      hide Unpad;
      var m := n - 1;
      UnpadLast(out, counts, width, m);
      UnpadRecovers(out, ids, counts, width, m);
      RowTokens(out, ids, counts, width, m);
      assert ids[..Start(counts, n)] == ids[..Start(counts, m)] + ids[Start(counts, m)..Start(counts, n)];
    }
  }

  /** src went to the places dest names, and every other place is as before. */
  ghost predicate Scattered(before: seq<int>, after: seq<int>, dest: seq<int>, src: seq<int>)
  {
    && |after| == |before| && |dest| == |src|
    && (forall k | 0 <= k < |dest| :: 0 <= dest[k] < |after| && after[dest[k]] == src[k])
    && forall q | 0 <= q < |after| && (forall k | 0 <= k < |dest| :: dest[k] != q) :: after[q] == before[q]
  }

  /** out.index_copy_(0, dest, src) */
  method IndexCopy(out: array<int>, dest: seq<int>, src: seq<int>)
    requires |dest| == |src| && forall k | 0 <= k < |dest| :: 0 <= dest[k] < out.Length
    requires forall k, l | 0 <= k < l < |dest| :: dest[k] != dest[l]
    modifies out
    ensures Scattered(old(out[..]), out[..], dest, src)
  {
    for i := 0 to |dest|
      invariant forall k | 0 <= k < i :: out[dest[k]] == src[k]
      invariant forall q | 0 <= q < out.Length && (forall k | 0 <= k < i :: dest[k] != q) :: out[q] == old(out[q])
    {
      out[dest[i]] := src[i];
    }
  }

  lemma DestinationsDistinct(counts: seq<nat>, width: nat)
    requires forall r | 0 <= r < |counts| :: counts[r] <= width
    ensures forall k, l | 0 <= k < l < |Destinations(counts, width)| ::
            Destinations(counts, width)[k] != Destinations(counts, width)[l]
    ensures forall k | 0 <= k < |Destinations(counts, width)| :: 0 <= Destinations(counts, width)[k] < |counts| * width
  {
    hide Destinations;
    var dest := Destinations(counts, width);
    forall k, l | 0 <= k < l < |dest| ensures dest[k] != dest[l] { DestinationsClimb(counts, width, k, l); }
    forall k | 0 <= k < |dest| ensures 0 <= dest[k] < |counts| * width { DestinationsClimb(counts, width, k, k); }
  }

  /** No token goes to a slot past its request's count. */
  lemma PastTheTokens(counts: seq<nat>, width: nat, k: nat, r: nat, j: nat)
    requires (forall s | 0 <= s < |counts| :: counts[s] <= width) && k < |Destinations(counts, width)|
    requires r < |counts| && counts[r] <= j < width
    ensures Destinations(counts, width)[k] != r * width + j
  {
    hide Destinations;
    RequestOf(counts, 0, 0);
    var s, i := TokenAt(counts, |counts|, k);
    DestinationOf(counts, width, s, i);
    IndexUnique(r, width, j);
    IndexUnique(s, width, i);
  }

  /** Scattering the tokens into zeros pads every row. */
  lemma ScatterPads(zeros: seq<int>, out: seq<int>, ids: seq<int>, counts: seq<nat>, width: nat)
    requires |out| == |counts| * width && |ids| == Start(counts, |counts|) && forall r | 0 <= r < |counts| ::
             counts[r] <= width
    requires Scattered(zeros, out, Destinations(counts, width), ids) && forall q | 0 <= q < |zeros| :: zeros[q] == 0
    ensures Padded(out, ids, counts, width)
  {
    hide Destinations, RequestIndices;
    forall r: nat, j: nat | r < |counts| && j < width ensures SlotHolds(out, ids, counts, width, r, j) {
      IndexBound(r, |counts|, width, j);
      if j < counts[r] {
        DestinationOf(counts, width, r, j);
      } else {
        forall k | 0 <= k < |ids| ensures Destinations(counts, width)[k] != r * width + j {
          PastTheTokens(counts, width, k, r, j);
        }
      }
    }
  }

  method PadTo(ids: seq<int>, counts: seq<nat>, width: nat) returns (out: array<int>)
    requires |ids| == Start(counts, |counts|) && forall r | 0 <= r < |counts| :: counts[r] <= width
    ensures fresh(out) && Padded(out[..], ids, counts, width)
  {
    hide Destinations, RequestIndices, Padded, Scattered, Start;
    var dest, length := Destinations(counts, width), |counts| * width;
    RequestOf(counts, 0, 0);
    DestinationsDistinct(counts, width);
    out := new int[length](_ => 0);
    ghost var zeros := out[..];
    IndexCopy(out, dest, ids);
    ScatterPads(zeros, out[..], ids, counts, width);
  }

  /** pad_speculative_draft_tokens; `ids` is the requests' tokens end to end. */
  method Pad(ids: seq<int>, counts: seq<nat>, maxLen: Option<int>) returns (r: Result<array<int>, Error>)
    requires |ids| == Start(counts, |counts|)
    ensures counts == [] <==> r == Err(NoRequests)
    ensures counts != [] ==> (r == Err(MaxLenTooSmall) <==> maxLen.Some? && maxLen.value < Max(counts))
    ensures r.Ok? ==>
            fresh(r.value) && Padded(r.value[..], ids, counts, if maxLen.Some? then maxLen.value else Max(counts))
  {
    hide Padded, Start;
    if counts == [] {
      return Err(NoRequests);
    }
    var width := Max(counts);
    if maxLen.Some? {
      if maxLen.value < width {
        return Err(MaxLenTooSmall);
      }
      width := maxLen.value;
    }
    var out := PadTo(ids, counts, width);
    r := Ok(out);
  }
}
