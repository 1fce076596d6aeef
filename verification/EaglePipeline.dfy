/**
 EAGLE3 auxiliary hidden states carried across a pipeline-parallel split.

 A forward pass over layers 0..N-1 is cut into contiguous stages. Each stage hands the next one
 its hidden state, its residual, and the auxiliary states captured so far, keyed by global layer
 index. The claim is that the last stage returns what one stage owning all layers would return.
 */
module EaglePipeline {
  import opened Options
  import opened Sorting

  /** The parts of the model the pass treats as black boxes. `layer(i, h, r)` is decoder layer i. */
  datatype Network<!H> = Network(
    layer: (nat, H, Option<H>) -> (H, H),
    add: (H, H) -> H,
    norm: (H, Option<H>) -> H)

  datatype Stage = Stage(start: nat, end: nat, isFirst: bool, isLast: bool)

  /** The tensors a stage sends on; `aux` holds the slots by global index. */
  datatype Handoff<H> = Handoff(hidden: H, residual: Option<H>, aux: map<int, H>)

  datatype Outcome<H> =
    | Handed(tensors: Handoff<H>)
    | Returned(hidden: H, aux: Option<seq<H>>)
    | KeyError
    | AssertionError
  {
    predicate Failed() { KeyError? || AssertionError? }
  }

  /******* Sorting and selecting indices *******/

  function Less(): (int, int) -> bool { (a, b) => a < b }

  function Sorted(s: seq<int>): seq<int> { InsertionSort(s, Less()) }

  /** The elements at most hi, in order. */
  function UpTo(s: seq<int>, hi: int): seq<int>
  {
    if s == [] then []
    else if s[0] <= hi then [s[0]] + UpTo(s[1..], hi)
    else UpTo(s[1..], hi)
  }

  /** The elements in (lo, hi], in order. */
  function Band(s: seq<int>, lo: int, hi: int): seq<int>
  {
    if s == [] then []
    else if lo < s[0] <= hi then [s[0]] + Band(s[1..], lo, hi)
    else Band(s[1..], lo, hi)
  }

  ghost predicate Ascending(s: seq<int>)
  {
    forall i, j | 0 <= i < j < |s| :: s[i] <= s[j]
  }

  ghost predicate NoDuplicates(s: seq<int>)
  {
    forall i, j | 0 <= i < j < |s| :: s[i] != s[j]
  }

  ghost predicate InRange(request: seq<int>, layers: nat)
  {
    forall i | i in request :: 0 <= i <= layers
  }

  lemma SortedPermutes(s: seq<int>)
    ensures Ascending(Sorted(s)) && multiset(Sorted(s)) == multiset(s)
  {
    InsertionSorts(s, Less());
    assert StrictWeak(Less());
    var t := Sorted(s);
    forall i, j | 0 <= i < j < |t| ensures t[i] <= t[j] { assert !Less()(t[j], t[i]); }
  }

  lemma SortedSorts(s: seq<int>)
    ensures Ascending(Sorted(s)) && |Sorted(s)| == |s|
    ensures forall x :: x in Sorted(s) <==> x in s
  {
    SortedPermutes(s);
    assert |multiset(Sorted(s))| == |Sorted(s)| && |multiset(s)| == |s|;
    forall x ensures x in Sorted(s) <==> x in s {
      assert x in Sorted(s) <==> x in multiset(Sorted(s));
    }
  }

  lemma {:induction false} DuplicatesByCount(s: seq<int>)
    ensures NoDuplicates(s) <==> forall x :: multiset(s)[x] <= 1
  {
    if s != [] {
      var t := s[1..];
      assert s == [s[0]] + t;
      DuplicatesByCount(t);
      if NoDuplicates(s) {
        assert NoDuplicates(t);
        assert s[0] !in t;
        assert s[0] !in multiset(t);
      }
      if forall x :: multiset(s)[x] <= 1 {
        forall x ensures multiset(t)[x] <= 1 { assert multiset(s)[x] <= 1; }
        assert multiset(s)[s[0]] <= 1;
        assert s[0] !in multiset(t);
        assert s[0] !in t;
      }
    }
  }

  lemma SortedKeepsDistinct(s: seq<int>)
    ensures NoDuplicates(s) <==> NoDuplicates(Sorted(s))
  {
    SortedPermutes(s);
    DuplicatesByCount(s);
    DuplicatesByCount(Sorted(s));
  }

  lemma {:induction false} UpToElements(s: seq<int>, hi: int)
    ensures forall x :: x in UpTo(s, hi) <==> x in s && x <= hi
    ensures |UpTo(s, hi)| <= |s|
  {
    if s != [] {
      UpToElements(s[1..], hi);
      assert s == [s[0]] + s[1..];
    }
  }

  lemma {:induction false} UpToAll(s: seq<int>, hi: int)
    requires forall k | 0 <= k < |s| :: s[k] <= hi
    ensures UpTo(s, hi) == s
  {
    if s != [] { UpToAll(s[1..], hi); }
  }

  lemma {:induction false} UpToNone(s: seq<int>, hi: int)
    requires forall k | 0 <= k < |s| :: s[k] > hi
    ensures UpTo(s, hi) == []
  {
    if s != [] { UpToNone(s[1..], hi); }
  }

  lemma {:induction false} UpToFewer(s: seq<int>, hi: int, k: nat)
    requires k < |s| && s[k] > hi
    ensures |UpTo(s, hi)| < |s|
  {
    UpToElements(s[1..], hi);
    if k > 0 { UpToFewer(s[1..], hi, k - 1); }
  }

  lemma {:induction false} BandElements(s: seq<int>, lo: int, hi: int)
    ensures forall x :: x in Band(s, lo, hi) <==> x in s && lo < x <= hi
  {
    if s != [] {
      BandElements(s[1..], lo, hi);
      assert s == [s[0]] + s[1..];
    }
  }

  lemma {:induction false} BandNone(s: seq<int>, lo: int, hi: int)
    requires forall k | 0 <= k < |s| :: !(lo < s[k] <= hi)
    ensures Band(s, lo, hi) == []
  {
    if s != [] { BandNone(s[1..], lo, hi); }
  }

  /** Elements at most `lo`, then those in (lo, hi]: an ascending list is cut without loss. */
  lemma {:induction false} UpToSplit(s: seq<int>, lo: int, hi: int)
    requires Ascending(s) && lo <= hi
    ensures UpTo(s, hi) == UpTo(s, lo) + Band(s, lo, hi)
  {
    if s != [] {
      UpToSplit(s[1..], lo, hi);
      if s[0] > lo {
        UpToNone(s[1..], lo);
      }
    }
  }

  lemma {:induction false} BandInside(s: seq<int>, lo: int, hi: int)
    ensures forall k | 0 <= k < |Band(s, lo, hi)| :: lo < Band(s, lo, hi)[k] <= hi
  {
    if s != [] { BandInside(s[1..], lo, hi); }
  }

  lemma {:induction false} BandAll(s: seq<int>, lo: int, hi: int)
    requires forall k | 0 <= k < |s| :: lo < s[k] <= hi
    ensures Band(s, lo, hi) == s
  {
    if s != [] { BandAll(s[1..], lo, hi); }
  }

  lemma {:induction false} BandShort(s: seq<int>, lo: int, hi: int)
    ensures |Band(s, lo, hi)| <= |s|
    ensures |Band(s, lo, hi)| == |s| ==> Band(s, lo, hi) == s
  {
    if s != [] { BandShort(s[1..], lo, hi); }
  }

  lemma {:induction false} BandSplit(s: seq<int>, lo: int, mid: int, hi: int)
    requires Ascending(s) && lo <= mid <= hi
    ensures Band(s, lo, hi) == Band(s, lo, mid) + Band(s, mid, hi)
  {
    if s != [] {
      BandSplit(s[1..], lo, mid, hi);
      if s[0] > mid { BandNone(s[1..], lo, mid); }
    }
  }

  lemma {:induction false} UnitBandDistinct(s: seq<int>, i: int)
    requires NoDuplicates(s)
    ensures |Band(s, i - 1, i)| <= 1
  {
    if s != [] {
      if s[0] == i { BandNone(s[1..], i - 1, i); } else { UnitBandDistinct(s[1..], i); }
    }
  }

  /******* Slots (eagle3_pp.py) *******/

  function SlotsReceived(stage: Stage, request: seq<int>): seq<int>
  {
    if stage.isFirst then [] else UpTo(Sorted(request), stage.start)
  }

  function SlotsCaptured(stage: Stage, request: seq<int>): seq<int>
  {
    FirstIndex(stage, request) + Band(Sorted(request), stage.start, stage.end)
  }

  /** Index 0 is the embedding, which only the first stage holds. */
  function FirstIndex(stage: Stage, request: seq<int>): seq<int>
  {
    if stage.isFirst && 0 in request then [0] else []
  }

  /** The global indices the loop appends at, in the order it appends them. */
  function CapturedIndices(request: seq<int>, start: nat, end: nat): seq<int>
  {
    if end <= start then []
    else if end in request then CapturedIndices(request, start, end - 1) + [end]
    else CapturedIndices(request, start, end - 1)
  }

  /******* One stage *******/

  type Stream<H> = (H, Option<H>)

  /** Layers lo..hi-1 applied in order. */
  function RunLayers<H>(net: Network<H>, lo: nat, hi: nat, s: Stream<H>): Stream<H>
  {
    if hi <= lo then s
    else
      var (h, r) := RunLayers(net, lo, hi - 1, s);
      var (h', r') := net.layer(hi - 1, h, r);
      (h', Some(r'))
  }

  /** What is captured at a point of the stream: the residual sum, or the embedding before layer 0. */
  function Capture<H>(net: Network<H>, s: Stream<H>): H
  {
    if s.1.Some? then net.add(s.0, s.1.value) else s.0
  }

  function Captured<H>(net: Network<H>, request: seq<int>, lo: nat, hi: nat, s: Stream<H>): seq<H>
  {
    if hi <= lo then []
    else if hi in request then
      Captured(net, request, lo, hi - 1, s) + [Capture(net, RunLayers(net, lo, hi, s))]
    else Captured(net, request, lo, hi - 1, s)
  }

  /** Everything a stage appends: the embedding when asked for, then one value per requested layer. */
  function Appended<H>(net: Network<H>, stage: Stage, request: seq<int>, s: Stream<H>): seq<H>
  {
    var tail := Captured(net, request, stage.start, stage.end, s);
    if stage.isFirst && 0 in request then [s.0] + tail else tail
  }

  function Read<H>(aux: map<int, H>, slots: seq<int>): seq<H>
    requires forall k | 0 <= k < |slots| :: slots[k] in aux
  {
    seq(|slots|, k requires 0 <= k < |slots| => aux[slots[k]])
  }

  function Min(a: nat, b: nat): nat { if a < b then a else b }

  /** The first k pairs of zip(slots, values), written into a dictionary in order. */
  function Zip<H>(slots: seq<int>, values: seq<H>, k: nat): map<int, H>
    requires k <= |slots| && k <= |values|
  {
    if k == 0 then map[] else Zip(slots, values, k - 1)[slots[k - 1] := values[k - 1]]
  }

  function StageOutcome<H>(net: Network<H>, stage: Stage, request: seq<int>, embedded: H,
                           incoming: Option<Handoff<H>>): Outcome<H>
    requires stage.start <= stage.end
  {
    var slotsIn := SlotsReceived(stage, request);
    if !stage.isFirst && incoming.None? then AssertionError
    else if !stage.isFirst && exists k | 0 <= k < |slotsIn| :: slotsIn[k] !in incoming.value.aux then KeyError
    else
      var received := if stage.isFirst then [] else Read(incoming.value.aux, slotsIn);
      var s0 := if stage.isFirst then (embedded, None) else (incoming.value.hidden, incoming.value.residual);
      var (h, r) := RunLayers(net, stage.start, stage.end, s0);
      var captured := Appended(net, stage, request, s0);
      if !stage.isLast then
        var slots := slotsIn + SlotsCaptured(stage, request);
        var values := received + captured;
        Handed(Handoff(h, r, Zip(slots, values, Min(|slots|, |values|))))
      else if request == [] then Returned(net.norm(h, r), None)
      else if |received + captured| != |request| then AssertionError
      else Returned(net.norm(h, r), Some(received + captured))
  }

  /** MiniMaxM2Model.forward, statement by statement. */
  method Forward<H>(net: Network<H>, stage: Stage, request: seq<int>, embedded: H,
                    incoming: Option<Handoff<H>>)
    returns (out: Outcome<H>)
    requires stage.start <= stage.end
    ensures out == StageOutcome(net, stage, request, embedded, incoming)
  {
    hide Sorted, UpTo, Band;
    var received: seq<H> := [];
    var hidden := embedded;
    var residual: Option<H> := None;
    if !stage.isFirst {
      if incoming.None? { return AssertionError; }
      hidden, residual := incoming.value.hidden, incoming.value.residual;
      var slots := SlotsReceived(stage, request);
      for k := 0 to |slots|
        invariant forall j | 0 <= j < k :: slots[j] in incoming.value.aux
        invariant received == Read(incoming.value.aux, slots[..k])
      {
        if slots[k] !in incoming.value.aux { return KeyError; }
        assert slots[..k + 1] == slots[..k] + [slots[k]];
        received := received + [incoming.value.aux[slots[k]]];
      }
      assert slots[..|slots|] == slots;
    }
    ghost var s0 := (hidden, residual);
    var captured: seq<H> := [];
    if stage.isFirst && 0 in request { captured := captured + [hidden]; }
    ghost var first := captured;
    for idx := stage.start to stage.end
      invariant (hidden, residual) == RunLayers(net, stage.start, idx, s0)
      invariant captured == first + Captured(net, request, stage.start, idx, s0)
    {
      var (h, r) := net.layer(idx, hidden, residual);
      hidden, residual := h, Some(r);
      if idx + 1 in request { captured := captured + [net.add(h, r)]; }
    }
    assert captured == Appended(net, stage, request, s0);
    if !stage.isLast {
      var slots := SlotsReceived(stage, request) + SlotsCaptured(stage, request);
      var values := received + captured;
      var aux: map<int, H> := map[];
      for k := 0 to Min(|slots|, |values|)
        invariant aux == Zip(slots, values, k)
      {
        aux := aux[slots[k] := values[k]];
      }
      return Handed(Handoff(hidden, residual, aux));
    }
    hidden := net.norm(hidden, residual);
    if request == [] { return Returned(hidden, None); }
    var all := received + captured;
    if |all| != |request| { return AssertionError; }
    return Returned(hidden, Some(all));
  }

  /******* The whole pipeline *******/

  ghost predicate ValidSplit(cuts: seq<nat>, layers: nat)
  {
    && |cuts| >= 2 && cuts[0] == 0 && cuts[|cuts| - 1] == layers
    && forall k | 0 <= k < |cuts| - 1 :: cuts[k] <= cuts[k + 1]
  }

  function StageOf(cuts: seq<nat>, k: nat): Stage
    requires k + 1 < |cuts|
  {
    Stage(cuts[k], cuts[k + 1], k == 0, k + 2 == |cuts|)
  }

  /** The outcome of stage k when stages 0..k have run in order. */
  function RunTo<H>(net: Network<H>, cuts: seq<nat>, request: seq<int>, embedded: H, k: nat): Outcome<H>
    requires k + 1 < |cuts|
    requires forall j | 0 <= j < |cuts| - 1 :: cuts[j] <= cuts[j + 1]
  {
    if k == 0 then StageOutcome(net, StageOf(cuts, 0), request, embedded, None)
    else
      match RunTo(net, cuts, request, embedded, k - 1)
      case Handed(t) => StageOutcome(net, StageOf(cuts, k), request, embedded, Some(t))
      case other => other
  }

  function Run<H>(net: Network<H>, cuts: seq<nat>, request: seq<int>, embedded: H): Outcome<H>
    requires |cuts| >= 2
    requires forall j | 0 <= j < |cuts| - 1 :: cuts[j] <= cuts[j + 1]
  {
    RunTo(net, cuts, request, embedded, |cuts| - 2)
  }

  /** The input to layer i. */
  function InputTo<H>(net: Network<H>, embedded: H, i: nat): H
  {
    Capture(net, RunLayers(net, 0, i, (embedded, None)))
  }

  /** What the drafter is promised: the inputs to the requested layers, in layer order. */
  function Expected<H>(net: Network<H>, layers: nat, request: seq<int>, embedded: H): Outcome<H>
    requires forall i | i in request :: 0 <= i
  {
    SortedSorts(request);
    var (h, r) := RunLayers(net, 0, layers, (embedded, None));
    var order := Sorted(request);
    Returned(net.norm(h, r),
             if request == [] then None
             else Some(seq(|order|,
               k requires 0 <= k < |order| => assert order[k] in order; InputTo(net, embedded, order[k]))))
  }

  /** A hand-off at layer boundary s: exactly the requested indices up to s, each the right tensor. */
  ghost predicate Carries<H>(net: Network<H>, request: seq<int>, embedded: H, s: nat, t: Handoff<H>)
  {
    && (t.hidden, t.residual) == RunLayers(net, 0, s, (embedded, None))
    && (forall i :: i in t.aux <==> i in request && 0 <= i <= s)
    && forall i | i in t.aux && 0 <= i :: t.aux[i] == InputTo(net, embedded, i)
  }

  /******* Slots against appends *******/

  lemma {:induction false} CapturedIndicesElements(request: seq<int>, start: nat, end: nat)
    ensures forall x :: x in CapturedIndices(request, start, end) <==> x in request && start < x <= end
  {
    if start < end { CapturedIndicesElements(request, start, end - 1); }
  }

  lemma UnitBand(s: seq<int>, i: int)
    ensures i in s <==> |Band(s, i - 1, i)| > 0
    ensures var u := Band(s, i - 1, i); forall k | 0 <= k < |u| :: u[k] == i
    ensures NoDuplicates(s) ==> |Band(s, i - 1, i)| <= 1
  {
    var u := Band(s, i - 1, i);
    BandInside(s, i - 1, i);
    BandElements(s, i - 1, i);
    assert |u| == 0 || u[0] in u;
    assert i in s ==> i in u;
    if NoDuplicates(s) { UnitBandDistinct(s, i); }
  }

  /** A stage never appends more than it names; when the counts agree the lists do too. */
  lemma {:induction false} AppendsWithinSlots(request: seq<int>, order: seq<int>, start: nat, end: nat)
    requires start <= end && Ascending(order) && forall x :: x in order <==> x in request
    ensures |CapturedIndices(request, start, end)| <= |Band(order, start, end)|
    ensures |CapturedIndices(request, start, end)| == |Band(order, start, end)| || NoDuplicates(order)
            ==> CapturedIndices(request, start, end) == Band(order, start, end)
  {
    if start < end {
      AppendsWithinSlots(request, order, start, end - 1);
      BandSplit(order, start, end - 1, end);
      UnitBand(order, end);
    } else {
      BandNone(order, start, end);
    }
  }

  /** The k-th slot name is the index of the k-th append, and every slot name is appended. */
  ghost predicate Aligned(request: seq<int>, start: nat, end: nat)
  {
    var c, s := CapturedIndices(request, start, end), Band(Sorted(request), start, end);
    |c| <= |s| && c == s[..|c|] && forall k | 0 <= k < |s| :: s[k] in c
  }

  lemma DistinctIsAligned(request: seq<int>, start: nat, end: nat)
    requires start <= end && NoDuplicates(request)
    ensures Aligned(request, start, end)
  {
    hide CapturedIndices, Sorted, Band;
    SortedSorts(request);
    SortedKeepsDistinct(request);
    AppendsWithinSlots(request, Sorted(request), start, end);
  }

  /** Bands of at most one layer are aligned even when an index is requested twice. */
  lemma NarrowIsAligned(request: seq<int>, start: nat, end: nat)
    requires start <= end <= start + 1
    ensures Aligned(request, start, end)
  {
    if start < end {
      SortedSorts(request);
      UnitBand(Sorted(request), end);
      assert CapturedIndices(request, start, start) == [];
      assert CapturedIndices(request, start, end) == if end in request then [end] else [];
    } else {
      BandNone(Sorted(request), start, end);
    }
  }

  lemma {:induction false} LayersCompose<H>(net: Network<H>, lo: nat, mid: nat, hi: nat, s: Stream<H>)
    requires lo <= mid <= hi
    ensures RunLayers(net, mid, hi, RunLayers(net, lo, mid, s)) == RunLayers(net, lo, hi, s)
  {
    if mid < hi { LayersCompose(net, lo, mid, hi - 1, s); }
  }

  /** The k-th append of a stage is the input to the k-th captured index. */
  lemma {:induction false} CapturedValues<H>(net: Network<H>, request: seq<int>, embedded: H, start: nat, end: nat)
    ensures var s0 := RunLayers(net, 0, start, (embedded, None));
            var c, v := CapturedIndices(request, start, end), Captured(net, request, start, end, s0);
            |c| == |v| && forall k | 0 <= k < |c| :: c[k] >= 0 && v[k] == InputTo(net, embedded, c[k])
  {
    if start < end {
      CapturedValues(net, request, embedded, start, end - 1);
      LayersCompose(net, 0, start, end, (embedded, None));
    }
  }

  lemma {:induction false} ZipIs<H>(slots: seq<int>, values: seq<H>, k: nat, v: int -> H)
    requires k <= |slots| && k <= |values|
    requires forall j | 0 <= j < k :: values[j] == v(slots[j])
    ensures forall x :: x in Zip(slots, values, k) <==> x in slots[..k]
    ensures forall x | x in Zip(slots, values, k) :: Zip(slots, values, k)[x] == v(x)
  {
    if k > 0 {
      ZipIs(slots, values, k - 1, v);
      assert slots[..k] == slots[..k - 1] + [slots[k - 1]];
    }
  }

  /******* One stage keeps the hand-off right *******/

  /** The indices a stage ends up holding, in order. */
  ghost function Seen(stage: Stage, request: seq<int>): seq<int>
  {
    SlotsReceived(stage, request) + FirstIndex(stage, request) + CapturedIndices(request, stage.start, stage.end)
  }

  ghost predicate GoodInput<H>(net: Network<H>, stage: Stage, request: seq<int>, embedded: H,
                               incoming: Option<Handoff<H>>)
  {
    && stage.start <= stage.end
    && (forall i | i in request :: 0 <= i)
    && (stage.isFirst <==> incoming.None?)
    && (stage.isFirst ==> stage.start == 0)
    && (incoming.Some? ==> Carries(net, request, embedded, stage.start, incoming.value))
  }

  /** Each appended value is the input to the layer named beside it. */
  lemma AppendedValues<H>(net: Network<H>, stage: Stage, request: seq<int>, embedded: H)
    requires stage.isFirst ==> stage.start == 0
    ensures var s0 := RunLayers(net, 0, stage.start, (embedded, None));
            var names := FirstIndex(stage, request) + CapturedIndices(request, stage.start, stage.end);
            var v := Appended(net, stage, request, s0);
            |v| == |names| && forall k | 0 <= k < |names| :: names[k] >= 0 && v[k] == InputTo(net, embedded, names[k])
  {
    CapturedValues(net, request, embedded, stage.start, stage.end);
  }

  /** With a good hand-off in, the values held are the inputs to the layers named by Seen. */
  lemma HeldValues<H>(net: Network<H>, stage: Stage, request: seq<int>, embedded: H, incoming: Option<Handoff<H>>)
    requires GoodInput(net, stage, request, embedded, incoming)
    ensures stage.isFirst || forall k | 0 <= k < |SlotsReceived(stage, request)| ::
                               SlotsReceived(stage, request)[k] in incoming.value.aux
    ensures var s0 := RunLayers(net, 0, stage.start, (embedded, None));
            var received := if stage.isFirst then [] else Read(incoming.value.aux, SlotsReceived(stage, request));
            var held := received + Appended(net, stage, request, s0);
            var seen := Seen(stage, request);
            && |held| == |seen|
            && forall k | 0 <= k < |seen| :: seen[k] >= 0 && held[k] == InputTo(net, embedded, seen[k])
  {
    hide Band, CapturedIndices, Sorted, UpTo, Captured, RunLayers;
    AppendedValues(net, stage, request, embedded);
    var names := FirstIndex(stage, request) + CapturedIndices(request, stage.start, stage.end);
    assert Seen(stage, request) == SlotsReceived(stage, request) + names;
    if !stage.isFirst { ReceivedSlotsNamed(stage, request); }
  }

  lemma ReceivedSlotsNamed(stage: Stage, request: seq<int>)
    requires forall i | i in request :: 0 <= i
    ensures forall k | 0 <= k < |SlotsReceived(stage, request)| ::
              SlotsReceived(stage, request)[k] in request && 0 <= SlotsReceived(stage, request)[k] <= stage.start
  {
    hide Sorted, UpTo;
    SortedSorts(request);
    UpToElements(Sorted(request), stage.start);
    var slots := SlotsReceived(stage, request);
    forall k | 0 <= k < |slots| ensures slots[k] in request && 0 <= slots[k] <= stage.start {
      var x := slots[k];
      assert x in slots;
      assert x in UpTo(Sorted(request), stage.start);
      assert x in Sorted(request);
      assert x in request;
    }
  }

  /** What a stage holds, as a set. */
  lemma SeenElements(stage: Stage, request: seq<int>, i: int)
    requires stage.start <= stage.end && (stage.isFirst ==> stage.start == 0)
    requires forall i | i in request :: 0 <= i
    ensures i in Seen(stage, request) <==> i in request && 0 <= i <= stage.end
  {
    hide CapturedIndices, Sorted, UpTo;
    var a, b, c := SlotsReceived(stage, request), FirstIndex(stage, request),
      CapturedIndices(request, stage.start, stage.end);
    assert i in Seen(stage, request) <==> i in a || i in b || i in c;
    assert i in c <==> i in request && stage.start < i <= stage.end by {
      CapturedIndicesElements(request, stage.start, stage.end);
    }
    assert !stage.isFirst ==> (i in a <==> i in request && i <= stage.start) by {
      SortedSorts(request);
      UpToElements(Sorted(request), stage.start);
    }
  }

  /** A non-last stage turns a good hand-off at its start into a good hand-off at its end. */
  lemma StageCarries<H>(net: Network<H>, stage: Stage, request: seq<int>, embedded: H, incoming: Option<Handoff<H>>)
    requires GoodInput(net, stage, request, embedded, incoming)
    requires !stage.isLast
    requires Aligned(request, stage.start, stage.end)
    ensures var out := StageOutcome(net, stage, request, embedded, incoming);
            out.Handed? && Carries(net, request, embedded, stage.end, out.tensors)
  {
    hide CapturedIndices, Sorted, Band, UpTo, Captured, Zip;
    HeldValues(net, stage, request, embedded, incoming);
    LayersCompose(net, 0, stage.start, stage.end, (embedded, None));
    var s0 := RunLayers(net, 0, stage.start, (embedded, None));
    var received := if stage.isFirst then [] else Read(incoming.value.aux, SlotsReceived(stage, request));
    var values := received + Appended(net, stage, request, s0);
    var seen := Seen(stage, request);
    var slots := SlotsReceived(stage, request) + SlotsCaptured(stage, request);
    assert seen == slots[..|seen|];
    ZipIs(slots, values, |seen|, (i: int) => if i >= 0 then InputTo(net, embedded, i) else embedded);
    forall i ensures i in seen <==> i in request && 0 <= i <= stage.end { SeenElements(stage, request, i); }
  }

  lemma {:induction false} NothingCaptured(start: nat, end: nat)
    ensures CapturedIndices([], start, end) == []
  {
    if start < end { NothingCaptured(start, end - 1); }
  }

  lemma NothingSeen(stage: Stage)
    ensures Seen(stage, []) == []
  {
    NothingCaptured(stage.start, stage.end);
    assert FirstIndex(stage, []) == [];
    assert Sorted([]) == [];
  }

  /** A last stage that has seen every requested index returns the expected pair. */
  lemma LastStageReturns<H>(net: Network<H>, stage: Stage, request: seq<int>, embedded: H, incoming: Option<Handoff<H>>)
    requires GoodInput(net, stage, request, embedded, incoming)
    requires stage.isLast
    ensures var out := StageOutcome(net, stage, request, embedded, incoming);
            && (out.Failed() <==> |Seen(stage, request)| != |request|)
            && (Seen(stage, request) == Sorted(request) ==> out == Expected(net, stage.end, request, embedded))
  {
    hide CapturedIndices, Sorted, Band, UpTo, Captured;
    HeldValues(net, stage, request, embedded, incoming);
    LayersCompose(net, 0, stage.start, stage.end, (embedded, None));
    if request == [] {
      NothingSeen(stage);
    } else if Seen(stage, request) == Sorted(request) {
      var order := Sorted(request);
      assert |order| == |request| && forall k | 0 <= k < |order| :: 0 <= order[k] by { SortedSorts(request); }
      var s0 := RunLayers(net, 0, stage.start, (embedded, None));
      var held := (if stage.isFirst then [] else Read(incoming.value.aux, SlotsReceived(stage, request))) +
                  Appended(net, stage, request, s0);
      assert held == seq(|order|, k requires 0 <= k < |order| => InputTo(net, embedded, order[k]));
    }
  }

  /******* Whole runs *******/

  /** Every hand-off of a run carries exactly the requested indices so far. */
  lemma {:induction false} HandoffsCarry<H>(net: Network<H>, cuts: seq<nat>, layers: nat, request: seq<int>,
                                            embedded: H, k: nat)
    requires ValidSplit(cuts, layers) && k + 2 < |cuts|
    requires forall i | i in request :: 0 <= i
    requires forall j | 0 <= j <= k :: Aligned(request, cuts[j], cuts[j + 1])
    ensures var out := RunTo(net, cuts, request, embedded, k);
            out.Handed? && Carries(net, request, embedded, cuts[k + 1], out.tensors)
  {
    if k == 0 {
      StageCarries(net, StageOf(cuts, 0), request, embedded, None);
    } else {
      HandoffsCarry(net, cuts, layers, request, embedded, k - 1);
      var t := RunTo(net, cuts, request, embedded, k - 1).tensors;
      StageCarries(net, StageOf(cuts, k), request, embedded, Some(t));
    }
  }

  lemma RunEndsAtLastStage<H>(net: Network<H>, cuts: seq<nat>, layers: nat, request: seq<int>, embedded: H)
    returns (incoming: Option<Handoff<H>>)
    requires ValidSplit(cuts, layers)
    requires forall i | i in request :: 0 <= i
    requires forall j | 0 <= j < |cuts| - 2 :: Aligned(request, cuts[j], cuts[j + 1])
    ensures GoodInput(net, StageOf(cuts, |cuts| - 2), request, embedded, incoming)
    ensures Run(net, cuts, request, embedded)
            == StageOutcome(net, StageOf(cuts, |cuts| - 2), request, embedded, incoming)
  {
    var last := |cuts| - 2;
    if last == 0 {
      incoming := None;
    } else {
      HandoffsCarry(net, cuts, layers, request, embedded, last - 1);
      incoming := Some(RunTo(net, cuts, request, embedded, last - 1).tensors);
    }
  }

  /** Main result: a set of indices in 0..N gives the expected list under every split. */
  lemma PipelineReturnsExpected<H>(net: Network<H>, cuts: seq<nat>, layers: nat, request: seq<int>, embedded: H)
    requires ValidSplit(cuts, layers)
    requires NoDuplicates(request) && InRange(request, layers)
    ensures Run(net, cuts, request, embedded) == Expected(net, layers, request, embedded)
  {
    forall j | 0 <= j < |cuts| - 2 ensures Aligned(request, cuts[j], cuts[j + 1]) {
      DistinctIsAligned(request, cuts[j], cuts[j + 1]);
    }
    var incoming := RunEndsAtLastStage(net, cuts, layers, request, embedded);
    var stage := StageOf(cuts, |cuts| - 2);
    LastStageReturns(net, stage, request, embedded, incoming);
    SeenIsEverything(stage, layers, request);
  }

  /** The first stage's names, when it owns every layer and each index is asked for once. */
  lemma FirstNamesAll(request: seq<int>, order: seq<int>, layers: nat)
    requires Ascending(order) && NoDuplicates(order) && forall x :: x in order <==> x in request
    requires forall k | 0 <= k < |order| :: 0 <= order[k] <= layers
    ensures (if 0 in request then [0] else []) + CapturedIndices(request, 0, layers) == order
  {
    hide Band, CapturedIndices;
    AppendsWithinSlots(request, order, 0, layers);
    UnitBand(order, 0);
    BandSplit(order, -1, 0, layers);
    BandAll(order, -1, layers);
  }

  lemma SeenIsEverything(stage: Stage, layers: nat, request: seq<int>)
    requires stage.start <= stage.end == layers && (stage.isFirst ==> stage.start == 0)
    requires NoDuplicates(request) && InRange(request, layers)
    ensures Seen(stage, request) == Sorted(request)
  {
    hide Band, CapturedIndices, Sorted, UpTo;
    var s := Sorted(request);
    SortedSorts(request);
    SortedKeepsDistinct(request);
    forall k | 0 <= k < |s| ensures 0 <= s[k] <= layers { assert s[k] in s; }
    if stage.isFirst {
      FirstNamesAll(request, s, layers);
    } else {
      AppendsWithinSlots(request, s, stage.start, layers);
      UpToSplit(s, stage.start, layers);
      UpToAll(s, layers);
    }
  }

  /** A later stage holding as many indices as requested leaves none past the last layer. */
  lemma SeenBound(stage: Stage, layers: nat, request: seq<int>)
    requires stage.start <= stage.end == layers && !stage.isFirst
    requires |Seen(stage, request)| == |request|
    ensures forall i | i in request :: i <= layers
  {
    hide Band, CapturedIndices, Sorted, UpTo;
    var s := Sorted(request);
    SortedSorts(request);
    AppendsWithinSlots(request, s, stage.start, layers);
    UpToSplit(s, stage.start, layers);
    forall i | i in request ensures i <= layers {
      var k :| 0 <= k < |s| && s[k] == i;
      if s[k] > layers { UpToFewer(s, layers, k); }
    }
  }

  /** The first stage naming as many indices as requested names each once, and all are in range. */
  lemma FirstNamesCount(request: seq<int>, order: seq<int>, layers: nat)
    requires Ascending(order) && forall x :: x in order <==> x in request
    requires |(if 0 in request then [0] else []) + CapturedIndices(request, 0, layers)| == |order|
    ensures NoDuplicates(order) && forall k | 0 <= k < |order| :: 0 <= order[k] <= layers
  {
    hide Band, CapturedIndices;
    var c := CapturedIndices(request, 0, layers);
    AppendsWithinSlots(request, order, 0, layers);
    UnitBand(order, 0);
    BandSplit(order, -1, 0, layers);
    BandShort(order, -1, layers);
    assert order == (if 0 in request then [0] else []) + c;
    CapturedIndicesDistinct(request, 0, layers);
    CapturedIndicesInBand(request, 0, layers);
  }

  lemma FirstSeenBound(stage: Stage, layers: nat, request: seq<int>)
    requires stage.isFirst && stage.start == 0 && stage.end == layers
    requires |Seen(stage, request)| == |request|
    ensures InRange(request, layers) && NoDuplicates(request)
  {
    hide Band, CapturedIndices, Sorted;
    var s := Sorted(request);
    SortedSorts(request);
    FirstNamesCount(request, s, layers);
    SortedKeepsDistinct(request);
    forall i | i in request ensures 0 <= i <= layers { var k :| 0 <= k < |s| && s[k] == i; }
  }

  lemma {:induction false} CapturedIndicesInBand(request: seq<int>, start: nat, end: nat)
    ensures forall k | 0 <= k < |CapturedIndices(request, start, end)| ::
              start < CapturedIndices(request, start, end)[k] <= end
  {
    if start < end { CapturedIndicesInBand(request, start, end - 1); }
  }

  lemma {:induction false} CapturedIndicesDistinct(request: seq<int>, start: nat, end: nat)
    ensures NoDuplicates(CapturedIndices(request, start, end))
  {
    if start < end {
      CapturedIndicesDistinct(request, start, end - 1);
      CapturedIndicesInBand(request, start, end - 1);
    }
  }

  /** One stage owning all layers succeeds exactly on a duplicate-free request within 0..N. */
  lemma SingleStageSucceedsIff<H>(net: Network<H>, layers: nat, request: seq<int>, embedded: H)
    ensures !Run(net, [0, layers], request, embedded).Failed()
            <==> NoDuplicates(request) && InRange(request, layers)
  {
    var cuts: seq<nat> := [0, layers];
    if !InRange(request, layers) {
      OutOfRangeFails(net, cuts, layers, request, embedded);
    } else if NoDuplicates(request) {
      PipelineReturnsExpected(net, cuts, layers, request, embedded);
    } else {
      LastStageReturns(net, StageOf(cuts, 0), request, embedded, None);
      if |Seen(StageOf(cuts, 0), request)| == |request| { FirstSeenBound(StageOf(cuts, 0), layers, request); }
    }
  }

  /** A stage that gets past its reads was sent every slot it asked for. */
  lemma ReadsSucceed<H>(net: Network<H>, stage: Stage, request: seq<int>, embedded: H, incoming: Option<Handoff<H>>)
    requires stage.start <= stage.end && !stage.isFirst
    requires incoming.Some? ==> forall i | i in incoming.value.aux :: 0 <= i
    ensures !StageOutcome(net, stage, request, embedded, incoming).Failed() ==> forall i | i in request :: 0 <= i
  {
    hide Sorted, UpTo;
    if !StageOutcome(net, stage, request, embedded, incoming).Failed() {
      forall i | i in request ensures 0 <= i {
        SortedSorts(request);
        UpToElements(Sorted(request), stage.start);
        if i <= stage.start { assert i in SlotsReceived(stage, request); }
      }
    }
  }

  /** Slot names of a hand-off are never negative. */
  lemma HandedKeysNonNegative<H>(net: Network<H>, stage: Stage, request: seq<int>, embedded: H,
                                 incoming: Option<Handoff<H>>)
    requires stage.start <= stage.end
    requires incoming.Some? ==> forall i | i in incoming.value.aux :: 0 <= i
    requires StageOutcome(net, stage, request, embedded, incoming).Handed?
    ensures forall i | i in StageOutcome(net, stage, request, embedded, incoming).tensors.aux :: 0 <= i
  {
    var slotsIn := SlotsReceived(stage, request);
    var slots := slotsIn + SlotsCaptured(stage, request);
    var s0 := if stage.isFirst then (embedded, None) else (incoming.value.hidden, incoming.value.residual);
    var values := (if stage.isFirst then [] else Read(incoming.value.aux, slotsIn)) + Appended(net, stage, request, s0);
    BandInside(Sorted(request), stage.start, stage.end);
    assert forall k | 0 <= k < |slots| :: 0 <= slots[k];
    ZipKeys(slots, values, Min(|slots|, |values|));
  }

  lemma {:induction false} ZipKeys<H>(slots: seq<int>, values: seq<H>, k: nat)
    requires k <= |slots| && k <= |values|
    ensures forall x | x in Zip(slots, values, k) :: x in slots
  {
    if k > 0 { ZipKeys(slots, values, k - 1); }
  }

  lemma {:induction false} RunKeysNonNegative<H>(net: Network<H>, cuts: seq<nat>, layers: nat, request: seq<int>,
                                                 embedded: H, k: nat)
    requires ValidSplit(cuts, layers) && k + 1 < |cuts|
    ensures var out := RunTo(net, cuts, request, embedded, k);
            && (out.Handed? ==> k + 2 < |cuts| && forall i | i in out.tensors.aux :: 0 <= i)
            && (out.Returned? ==> k + 2 == |cuts|)
            && (k > 0 && !out.Failed() ==> forall i | i in request :: 0 <= i)
  {
    if k == 0 {
      if RunTo(net, cuts, request, embedded, 0).Handed? {
        HandedKeysNonNegative(net, StageOf(cuts, 0), request, embedded, None);
      }
    } else {
      RunKeysNonNegative(net, cuts, layers, request, embedded, k - 1);
      var before := RunTo(net, cuts, request, embedded, k - 1);
      if before.Handed? {
        ReadsSucceed(net, StageOf(cuts, k), request, embedded, Some(before.tensors));
        if RunTo(net, cuts, request, embedded, k).Handed? {
          HandedKeysNonNegative(net, StageOf(cuts, k), request, embedded, Some(before.tensors));
        }
      }
    }
  }

  lemma {:induction false} CapturedCount<H>(net: Network<H>, request: seq<int>, lo: nat, hi: nat, s: Stream<H>)
    ensures |Captured(net, request, lo, hi, s)| == |CapturedIndices(request, lo, hi)|
  {
    if lo < hi { CapturedCount(net, request, lo, hi - 1, s); }
  }

  /** Whatever arrives, a last stage that returns has seen as many indices as were requested. */
  lemma ReturnCountsIndices<H>(net: Network<H>, stage: Stage, request: seq<int>, embedded: H,
                               incoming: Option<Handoff<H>>)
    requires stage.start <= stage.end && stage.isLast
    ensures StageOutcome(net, stage, request, embedded, incoming).Returned? && request != []
            ==> |Seen(stage, request)| == |request|
  {
    if stage.isFirst {
      CapturedCount(net, request, stage.start, stage.end, (embedded, None));
    } else if incoming.Some? {
      CapturedCount(net, request, stage.start, stage.end, (incoming.value.hidden, incoming.value.residual));
    }
  }

  /** A request naming an index outside 0..N fails under every split. */
  lemma OutOfRangeFails<H>(net: Network<H>, cuts: seq<nat>, layers: nat, request: seq<int>, embedded: H)
    requires ValidSplit(cuts, layers) && !InRange(request, layers)
    ensures Run(net, cuts, request, embedded).Failed()
  {
    var last := |cuts| - 2;
    var stage := StageOf(cuts, last);
    RunKeysNonNegative(net, cuts, layers, request, embedded, last);
    if |Seen(stage, request)| == |request| {
      if last == 0 { FirstSeenBound(stage, layers, request); } else { SeenBound(stage, layers, request); }
    }
    if last == 0 {
      ReturnCountsIndices(net, stage, request, embedded, None);
    } else {
      RunKeysNonNegative(net, cuts, layers, request, embedded, last - 1);
      var before := RunTo(net, cuts, request, embedded, last - 1);
      if before.Handed? {
        ReturnCountsIndices(net, stage, request, embedded, Some(before.tensors));
      }
    }
  }

  /** Which error a stage ends in, whatever it was sent. */
  lemma WhichError<H>(net: Network<H>, stage: Stage, request: seq<int>, embedded: H, incoming: Option<Handoff<H>>)
    requires stage.start <= stage.end
    ensures var out := StageOutcome(net, stage, request, embedded, incoming);
            && (out.KeyError? <==> !stage.isFirst && incoming.Some?
                                   && exists i | i in request :: i <= stage.start && i !in incoming.value.aux)
            && (out.AssertionError? && !stage.isLast ==> !stage.isFirst && incoming.None?)
            && (!stage.isFirst && incoming.None? ==> out.AssertionError?)
            && (out.Returned? ==> stage.isLast) && (out.Handed? ==> !stage.isLast)
  {
    hide Sorted, UpTo;
    SortedSorts(request);
    UpToElements(Sorted(request), stage.start);
    var slots := UpTo(Sorted(request), stage.start);
    assert forall i :: i in slots <==> i in request && i <= stage.start;
    if !stage.isFirst && incoming.Some? {
      if exists k :: 0 <= k < |slots| && slots[k] !in incoming.value.aux {
        var k :| 0 <= k < |slots| && slots[k] !in incoming.value.aux;
        assert slots[k] in slots;
      }
    }
  }

  /******* Exactly which requests a split serves *******/

  ghost predicate StrictlyAscending(s: seq<int>) { forall i, j | 0 <= i < j < |s| :: s[i] < s[j] }

  ghost predicate SameElements(a: seq<int>, b: seq<int>) { forall x :: x in a <==> x in b }

  lemma WithoutLast(a: seq<int>, x: int)
    requires StrictlyAscending(a) && a != []
    ensures x in a[..|a| - 1] <==> x in a && x != a[|a| - 1]
  {
    if x in a && x != a[|a| - 1] {
      var k :| 0 <= k < |a| && a[k] == x;
      assert a[..|a| - 1][k] == x;
    }
  }

  lemma LastsAgree(a: seq<int>, b: seq<int>)
    requires StrictlyAscending(a) && StrictlyAscending(b) && SameElements(a, b) && (a != [] || b != [])
    ensures a != [] && b != [] && a[|a| - 1] == b[|b| - 1]
  {
    assert a != [] ==> a[|a| - 1] in a && a[|a| - 1] in b;
    assert b != [] ==> b[|b| - 1] in b && b[|b| - 1] in a;
    var p :| 0 <= p < |b| && b[p] == a[|a| - 1];
    var q :| 0 <= q < |a| && a[q] == b[|b| - 1];
  }

  lemma {:induction false} StrictIsUnique(a: seq<int>, b: seq<int>)
    requires StrictlyAscending(a) && StrictlyAscending(b) && SameElements(a, b)
    ensures a == b
  {
    if a != [] || b != [] {
      LastsAgree(a, b);
      var m, n := |a| - 1, |b| - 1;
      forall x ensures x in a[..m] <==> x in b[..n] {
        WithoutLast(a, x);
        WithoutLast(b, x);
      }
      assert StrictlyAscending(a[..m]) && StrictlyAscending(b[..n]) && SameElements(a[..m], b[..n]);
      hide StrictlyAscending, SameElements;
      StrictIsUnique(a[..m], b[..n]);
      assert a == a[..m] + [a[m]] && b == b[..n] + [b[n]];
    }
  }

  /** In an ascending list the k-th smallest value lies no earlier than place k. */
  lemma {:induction false} NotBefore(c: seq<int>, s: seq<int>, k: nat, p: nat)
    requires StrictlyAscending(c) && Ascending(s) && SameElements(c, s)
    requires k < |c| && p < |s| && s[p] == c[k]
    ensures p >= k
  {
    if k > 0 {
      assert c[k - 1] in s;
      var q :| 0 <= q < |s| && s[q] == c[k - 1];
      NotBefore(c, s, k - 1, q);
    }
  }

  /** If the largest value lies within the first |c| places, those places hold c. */
  lemma {:induction false} PrefixWhenLargestFits(c: seq<int>, s: seq<int>, k: nat)
    requires StrictlyAscending(c) && Ascending(s) && SameElements(c, s)
    requires c != [] && |c| <= |s| && c[|c| - 1] in s[..|c|] && k < |c|
    ensures s[k] == c[k]
    decreases |c| - k
  {
    if k == |c| - 1 {
      var p :| 0 <= p < |c| && s[..|c|][p] == c[k];
      NotBefore(c, s, k, p);
    } else {
      PrefixWhenLargestFits(c, s, k + 1);
      assert c[k] in s;
      var q :| 0 <= q < |s| && s[q] == c[k];
      NotBefore(c, s, k, q);
    }
  }

  /** What a non-last stage tolerates among the indices it captures: only the largest may be asked for twice. */
  ghost predicate OnlyLargestRepeats(s: seq<int>)
  {
    forall k | 0 <= k < |s| - 1 && s[k] == s[k + 1] :: s[k] == s[|s| - 1]
  }

  lemma {:induction false} CapturedIndicesClimb(request: seq<int>, start: nat, end: nat)
    ensures StrictlyAscending(CapturedIndices(request, start, end))
  {
    if start < end {
      CapturedIndicesClimb(request, start, end - 1);
      CapturedIndicesInBand(request, start, end - 1);
    }
  }

  lemma {:induction false} BandAscends(s: seq<int>, lo: int, hi: int)
    requires Ascending(s)
    ensures Ascending(Band(s, lo, hi))
  {
    if s != [] {
      BandAscends(s[1..], lo, hi);
      var rest := Band(s[1..], lo, hi);
      forall k | 0 <= k < |rest| ensures s[0] <= rest[k] {
        assert rest[k] in rest;
        BandElements(s[1..], lo, hi);
        assert rest[k] in s[1..];
      }
    }
  }

  /** A stage's slot names in order, its captured indices in order, and that they name the same layers. */
  lemma BandAndCaptures(request: seq<int>, start: nat, end: nat)
    requires start <= end
    ensures var c, s := CapturedIndices(request, start, end), Band(Sorted(request), start, end);
            StrictlyAscending(c) && Ascending(s) && SameElements(c, s) && |c| <= |s|
  {
    hide Sorted, Band, CapturedIndices;
    SortedSorts(request);
    var c, s := CapturedIndices(request, start, end), Band(Sorted(request), start, end);
    CapturedIndicesClimb(request, start, end);
    BandAscends(Sorted(request), start, end);
    AppendsWithinSlots(request, Sorted(request), start, end);
    forall x ensures x in c <==> x in s {
      CapturedIndicesElements(request, start, end);
      BandElements(Sorted(request), start, end);
      assert x in Sorted(request) <==> x in request;
    }
  }

  lemma {:induction false} StrictUntilRepeat(s: seq<int>, m: nat)
    requires Ascending(s) && OnlyLargestRepeats(s) && m < |s| && forall k | 0 <= k < m :: s[k] != s[|s| - 1]
    ensures StrictlyAscending(s[..m + 1])
  {
    if m > 0 {
      StrictUntilRepeat(s, m - 1);
      assert s[m - 1] != s[m];
      forall i, j | 0 <= i < j <= m ensures s[i] < s[j] {
        if j == m { assert i < m - 1 ==> s[..m][i] < s[..m][m - 1]; } else { assert s[..m][i] < s[..m][j]; }
      }
    }
  }

  lemma {:induction false} FirstPlaceOf(s: seq<int>, x: int) returns (m: nat)
    requires x in s
    ensures m < |s| && s[m] == x && forall k | 0 <= k < m :: s[k] != x
  {
    if s[0] == x {
      m := 0;
    } else {
      var n := FirstPlaceOf(s[1..], x);
      m := n + 1;
      forall k | 0 <= k < m ensures s[k] != x { if k > 0 { assert s[1..][k - 1] == s[k]; } }
    }
  }

  /** Slot names and appends line up exactly when only the largest index repeats. */
  lemma AlignedIff(request: seq<int>, start: nat, end: nat)
    requires start <= end
    ensures Aligned(request, start, end) <==> OnlyLargestRepeats(Band(Sorted(request), start, end))
  {
    hide Sorted, Band, CapturedIndices;
    BandAndCaptures(request, start, end);
    var c, s := CapturedIndices(request, start, end), Band(Sorted(request), start, end);
    LinedUpIff(c, s);
  }

  lemma LinedUpIff(c: seq<int>, s: seq<int>)
    requires StrictlyAscending(c) && Ascending(s) && SameElements(c, s) && |c| <= |s|
    ensures c == s[..|c|] <==> OnlyLargestRepeats(s)
  {
    if s != [] {
      assert s[|s| - 1] in s && s[|s| - 1] in c;
      if OnlyLargestRepeats(s) {
        var m := FirstPlaceOf(s, s[|s| - 1]);
        StrictUntilRepeat(s, m);
        forall x ensures x in s[..m + 1] <==> x in s {
          if x in s {
            var p :| 0 <= p < |s| && s[p] == x;
            if p <= m { assert s[..m + 1][p] == x; } else { assert s[..m + 1][m] == x; }
          }
        }
        StrictIsUnique(c, s[..m + 1]);
      }
    }
  }

  /** What a split can serve: in range, and nothing repeated that some stage captures but does not name in time. */
  ghost predicate Servable(cuts: seq<nat>, layers: nat, request: seq<int>)
    requires ValidSplit(cuts, layers)
  {
    var last := |cuts| - 2;
    && InRange(request, layers)
    && if last == 0 then NoDuplicates(request)
       else
         && (forall j | 0 <= j < last :: OnlyLargestRepeats(Band(Sorted(request), cuts[j], cuts[j + 1])))
         && NoDuplicates(Band(Sorted(request), cuts[last], layers))
  }

  /**
   A later last stage has seen as many indices as requested exactly when it captures none that repeats; then
   it has seen them all.
   */
  lemma LastSeesAllIff(stage: Stage, layers: nat, request: seq<int>)
    requires stage.start <= stage.end == layers && !stage.isFirst && InRange(request, layers)
    ensures |Seen(stage, request)| == |request| <==> NoDuplicates(Band(Sorted(request), stage.start, layers))
    ensures |Seen(stage, request)| == |request| ==> Seen(stage, request) == Sorted(request)
  {
    hide Band, CapturedIndices, Sorted, UpTo;
    var s, c := Sorted(request), CapturedIndices(request, stage.start, layers);
    SortedSorts(request);
    forall k | 0 <= k < |s| ensures s[k] <= layers { assert s[k] in s; }
    UpToSplit(s, stage.start, layers);
    UpToAll(s, layers);
    BandAndCaptures(request, stage.start, layers);
    AppendsWithinSlots(request, s, stage.start, layers);
    var band := Band(s, stage.start, layers);
    if NoDuplicates(band) { StrictIsUnique(c, band); }
  }

  /** A stage whose slot names and appends part company never sends its largest captured index. */
  lemma StageDrops<H>(net: Network<H>, stage: Stage, request: seq<int>, embedded: H, incoming: Option<Handoff<H>>)
    returns (lost: int)
    requires GoodInput(net, stage, request, embedded, incoming) && !stage.isLast
    requires !Aligned(request, stage.start, stage.end)
    ensures lost in request && lost <= stage.end
    ensures var out := StageOutcome(net, stage, request, embedded, incoming); out.Handed? && lost !in out.tensors.aux
  {
    hide CapturedIndices, Sorted, Band, UpTo, Captured, Zip;
    HeldValues(net, stage, request, embedded, incoming);
    BandAndCaptures(request, stage.start, stage.end);
    var c, s := CapturedIndices(request, stage.start, stage.end), Band(Sorted(request), stage.start, stage.end);
    MisalignedLosesLargest(request, stage.start, stage.end);
    lost := c[|c| - 1];
    assert lost in c;
    CapturedIndicesElements(request, stage.start, stage.end);
    var s0 := RunLayers(net, 0, stage.start, (embedded, None));
    var received := if stage.isFirst then [] else Read(incoming.value.aux, SlotsReceived(stage, request));
    var values := received + Appended(net, stage, request, s0);
    var slots := SlotsReceived(stage, request) + SlotsCaptured(stage, request);
    assert |values| == |SlotsReceived(stage, request)| + |FirstIndex(stage, request)| + |c|;
    assert slots[..|values|] == SlotsReceived(stage, request) + FirstIndex(stage, request) + s[..|c|];
    ReceivedSlotsNamed(stage, request);
    assert lost !in SlotsReceived(stage, request);
    assert lost !in slots[..|values|];
    ZipKeysAre(slots, values, |values|);
    assert Min(|slots|, |values|) == |values|;
  }

  lemma MisalignedLosesLargest(request: seq<int>, start: nat, end: nat)
    requires start <= end && !Aligned(request, start, end)
    ensures var c, s := CapturedIndices(request, start, end), Band(Sorted(request), start, end);
            c != [] && |c| <= |s| && c[|c| - 1] !in s[..|c|]
  {
    hide CapturedIndices, Sorted, Band;
    BandAndCaptures(request, start, end);
    var c, s := CapturedIndices(request, start, end), Band(Sorted(request), start, end);
    forall k | 0 <= k < |s| ensures s[k] in c { assert s[k] in s; }
    if c != [] && c[|c| - 1] in s[..|c|] {
      forall k | 0 <= k < |c| ensures s[k] == c[k] { PrefixWhenLargestFits(c, s, k); }
    }
  }

  lemma {:induction false} ZipKeysAre<H>(slots: seq<int>, values: seq<H>, k: nat)
    requires k <= |slots| && k <= |values|
    ensures forall x :: x in Zip(slots, values, k) <==> x in slots[..k]
  {
    if k > 0 {
      ZipKeysAre(slots, values, k - 1);
      assert slots[..k] == slots[..k - 1] + [slots[k - 1]];
    }
  }

  lemma {:induction false} FailureLasts<H>(net: Network<H>, cuts: seq<nat>, layers: nat, request: seq<int>, embedded: H,
                                           k: nat, m: nat)
    requires ValidSplit(cuts, layers) && k <= m && m + 1 < |cuts| && RunTo(net, cuts, request, embedded, k).Failed()
    ensures RunTo(net, cuts, request, embedded, m).Failed()
  {
    if k < m { FailureLasts(net, cuts, layers, request, embedded, k, m - 1); }
  }

  lemma MissingSlotFails<H>(net: Network<H>, stage: Stage, request: seq<int>, embedded: H, t: Handoff<H>, lost: int)
    requires stage.start <= stage.end && !stage.isFirst && lost in request && lost <= stage.start && lost !in t.aux
    ensures StageOutcome(net, stage, request, embedded, Some(t)) == KeyError
  {
    hide Sorted, UpTo;
    SortedSorts(request);
    UpToElements(Sorted(request), stage.start);
    assert lost in Sorted(request);
    assert lost in SlotsReceived(stage, request);
  }

  /** The next stage asks for what was lost. */
  lemma MisalignedStageFails<H>(net: Network<H>, cuts: seq<nat>, layers: nat, request: seq<int>, embedded: H, j: nat)
    requires ValidSplit(cuts, layers) && j + 2 < |cuts| && forall i | i in request :: 0 <= i
    requires !Aligned(request, cuts[j], cuts[j + 1]) && forall i | 0 <= i < j :: Aligned(request, cuts[i], cuts[i + 1])
    ensures Run(net, cuts, request, embedded).Failed()
  {
    hide StageOutcome, Aligned;
    var incoming: Option<Handoff<H>> := None;
    if j > 0 {
      HandoffsCarry(net, cuts, layers, request, embedded, j - 1);
      incoming := Some(RunTo(net, cuts, request, embedded, j - 1).tensors);
    }
    var lost := StageDrops(net, StageOf(cuts, j), request, embedded, incoming);
    var t := RunTo(net, cuts, request, embedded, j).tensors;
    MissingSlotFails(net, StageOf(cuts, j + 1), request, embedded, t, lost);
    FailureLasts(net, cuts, layers, request, embedded, j + 1, |cuts| - 2);
  }

  lemma {:induction false} FirstMisaligned(cuts: seq<nat>, request: seq<int>, n: nat) returns (j: nat)
    requires n < |cuts| && exists i :: 0 <= i < n && !Aligned(request, cuts[i], cuts[i + 1])
    ensures j < n && !Aligned(request, cuts[j], cuts[j + 1]) && forall i | 0 <= i < j ::
            Aligned(request, cuts[i], cuts[i + 1])
  {
    hide Aligned;
    if exists i :: 0 <= i < n - 1 && !Aligned(request, cuts[i], cuts[i + 1]) {
      j := FirstMisaligned(cuts, request, n - 1);
    } else {
      j := n - 1;
    }
  }

  /** For every split and every request: the promised result, or an error, and exactly which. */
  lemma RunServesIff<H>(net: Network<H>, cuts: seq<nat>, layers: nat, request: seq<int>, embedded: H)
    requires ValidSplit(cuts, layers)
    ensures Run(net, cuts, request, embedded).Failed() <==> !Servable(cuts, layers, request)
    ensures Servable(cuts, layers, request) ==>
            Run(net, cuts, request, embedded) == Expected(net, layers, request, embedded)
  {
    hide Aligned, OnlyLargestRepeats, Sorted, Band, Seen;
    var last := |cuts| - 2;
    if !InRange(request, layers) {
      OutOfRangeFails(net, cuts, layers, request, embedded);
    } else if last == 0 {
      assert cuts == [0, layers];
      SingleStageSucceedsIff(net, layers, request, embedded);
      if NoDuplicates(request) { PipelineReturnsExpected(net, cuts, layers, request, embedded); }
    } else {
      forall j | 0 <= j < last
        ensures Aligned(request, cuts[j], cuts[j + 1])
                <==> OnlyLargestRepeats(Band(Sorted(request), cuts[j], cuts[j + 1]))
      {
        AlignedIff(request, cuts[j], cuts[j + 1]);
      }
      if exists j :: 0 <= j < last && !Aligned(request, cuts[j], cuts[j + 1]) {
        var j := FirstMisaligned(cuts, request, last);
        MisalignedStageFails(net, cuts, layers, request, embedded, j);
      } else {
        var incoming := RunEndsAtLastStage(net, cuts, layers, request, embedded);
        LastStageReturns(net, StageOf(cuts, last), request, embedded, incoming);
        LastSeesAllIff(StageOf(cuts, last), layers, request);
      }
    }
  }

  /******* What is served, read off the layers themselves *******/

  ghost predicate Follows<H>(net: Network<H>, hs: seq<H>, rs: seq<Option<H>>, i: nat)
    requires i + 1 < |hs| == |rs|
  {
    rs[i + 1].Some? && net.layer(i, hs[i], rs[i]) == (hs[i + 1], rs[i + 1].value)
  }

  /** hs[i] and rs[i] go into layer i, and what it gives comes next. */
  ghost predicate IsTrace<H>(net: Network<H>, layers: nat, embedded: H, hs: seq<H>, rs: seq<Option<H>>)
  {
    && |hs| == layers + 1 && |rs| == layers + 1 && hs[0] == embedded && rs[0] == None
    && forall i | 0 <= i < layers :: Follows(net, hs, rs, i)
  }

  lemma {:induction false} TraceExists<H>(net: Network<H>, layers: nat, embedded: H)
    returns (hs: seq<H>, rs: seq<Option<H>>)
    ensures IsTrace(net, layers, embedded, hs, rs)
  {
    if layers == 0 {
      hs, rs := [embedded], [None];
    } else {
      var hs', rs' := TraceExists(net, layers - 1, embedded);
      var (h, r) := net.layer(layers - 1, hs'[layers - 1], rs'[layers - 1]);
      hs, rs := hs' + [h], rs' + [Some(r)];
      forall i | 0 <= i < layers ensures Follows(net, hs, rs, i) {
        assert i < layers - 1 ==> Follows(net, hs', rs', i);
      }
    }
  }

  lemma {:induction false} LayersFollowTrace<H>(net: Network<H>, layers: nat, embedded: H, hs: seq<H>,
                                                rs: seq<Option<H>>, i: nat)
    requires IsTrace(net, layers, embedded, hs, rs) && i <= layers
    ensures RunLayers(net, 0, i, (embedded, None)) == (hs[i], rs[i])
    ensures IsInput(net, hs, rs, i, InputTo(net, embedded, i))
  {
    if i > 0 {
      LayersFollowTrace(net, layers, embedded, hs, rs, i - 1);
      assert Follows(net, hs, rs, i - 1);
    }
  }

  /** The input to layer i, as the drafter is to get it: the embedding, or hidden state plus residual. */
  ghost predicate IsInput<H>(net: Network<H>, hs: seq<H>, rs: seq<Option<H>>, i: int, x: H)
  {
    0 <= i < |hs| && i < |rs| && (if i == 0 then x == hs[0] else rs[i].Some? && x == net.add(hs[i], rs[i].value))
  }

  ghost predicate ServesTrace<H>(net: Network<H>, request: seq<int>, hs: seq<H>, rs: seq<Option<H>>, out: Outcome<H>)
    requires |hs| == |rs| > 0
  {
    && out.Returned? && out.hidden == net.norm(hs[|hs| - 1], rs[|rs| - 1])
    && (request == [] <==> out.aux.None?)
    && (request != [] ==> forall order | Ascending(order) && multiset(order) == multiset(request) ::
            && |out.aux.value| == |order|
            && forall k | 0 <= k < |order| :: IsInput(net, hs, rs, order[k], out.aux.value[k]))
  }

  lemma FirstIsLeast(a: seq<int>, b: seq<int>)
    requires Ascending(a) && a != [] && b != [] && multiset(a) == multiset(b)
    ensures a[0] <= b[0]
  {
    assert b[0] in multiset(b);
    var i :| 0 <= i < |a| && a[i] == b[0];
  }

  lemma {:induction false} AscendingIsUnique(a: seq<int>, b: seq<int>)
    requires Ascending(a) && Ascending(b) && multiset(a) == multiset(b)
    ensures a == b
  {
    assert |multiset(a)| == |a| && |multiset(b)| == |b|;
    if a != [] {
      FirstIsLeast(a, b);
      FirstIsLeast(b, a);
      assert a == [a[0]] + a[1..] && b == [b[0]] + b[1..];
      assert multiset(a[1..]) == multiset(a) - multiset{a[0]} == multiset(b[1..]);
      AscendingIsUnique(a[1..], b[1..]);
    }
  }

  /** Every run fails or serves the layers' own trace; it serves it exactly on a servable request. */
  lemma RunServesTrace<H>(net: Network<H>, cuts: seq<nat>, layers: nat, request: seq<int>, embedded: H, hs: seq<H>,
                          rs: seq<Option<H>>)
    requires ValidSplit(cuts, layers) && IsTrace(net, layers, embedded, hs, rs)
    ensures var out := Run(net, cuts, request, embedded);
            if Servable(cuts, layers, request) then ServesTrace(net, request, hs, rs, out) else out.Failed()
  {
    hide Run, Sorted, RunLayers, InputTo;
    RunServesIff(net, cuts, layers, request, embedded);
    if Servable(cuts, layers, request) {
      var s := Sorted(request);
      SortedPermutes(request);
      SortedSorts(request);
      LayersFollowTrace(net, layers, embedded, hs, rs, layers);
      var aux := Expected(net, layers, request, embedded).aux;
      forall k | 0 <= k < |s| && request != [] ensures IsInput(net, hs, rs, s[k], aux.value[k]) {
        assert s[k] in s;
        LayersFollowTrace(net, layers, embedded, hs, rs, s[k]);
      }
      forall order | Ascending(order) && multiset(order) == multiset(request) ensures order == s {
        AscendingIsUnique(order, s);
      }
    }
  }

  /** What stage k sends on, when it is not the last: the trace at its end, and the requested inputs up to there. */
  lemma HandoffsFollowTrace<H>(net: Network<H>, cuts: seq<nat>, layers: nat, request: seq<int>, embedded: H, k: nat,
                               hs: seq<H>, rs: seq<Option<H>>)
    requires ValidSplit(cuts, layers) && k + 2 < |cuts| && IsTrace(net, layers, embedded, hs, rs)
    requires forall i | i in request :: 0 <= i
    requires forall j | 0 <= j <= k :: Aligned(request, cuts[j], cuts[j + 1])
    ensures var out, s := RunTo(net, cuts, request, embedded, k), cuts[k + 1];
            && out.Handed? && s <= layers && out.tensors.hidden == hs[s] && out.tensors.residual == rs[s]
            && (forall i :: i in out.tensors.aux <==> i in request && 0 <= i <= s)
            && forall i | i in out.tensors.aux :: IsInput(net, hs, rs, i, out.tensors.aux[i])
  {
    hide RunTo, RunLayers, InputTo, Aligned;
    HandoffsCarry(net, cuts, layers, request, embedded, k);
    CutsWithin(cuts, layers, k + 1);
    var t := RunTo(net, cuts, request, embedded, k).tensors;
    LayersFollowTrace(net, layers, embedded, hs, rs, cuts[k + 1]);
    forall i | i in t.aux ensures IsInput(net, hs, rs, i, t.aux[i]) {
      LayersFollowTrace(net, layers, embedded, hs, rs, i);
    }
  }

  lemma {:induction false} CutsWithin(cuts: seq<nat>, layers: nat, k: nat)
    requires ValidSplit(cuts, layers) && k < |cuts|
    ensures cuts[k] <= layers
    decreases |cuts| - k
  {
    if k < |cuts| - 1 { CutsWithin(cuts, layers, k + 1); }
  }

  /** One layer per stage, then two stages that own none, so that even with no layers the last is not the first. */
  function UnitSplit(layers: nat): seq<nat>
  {
    seq(layers + 3, (i: int) => if 0 <= i <= layers then i else layers)
  }

  /** Under that split even a request with repeated indices is served. */
  lemma UnitSplitAcceptsDuplicates<H>(net: Network<H>, layers: nat, request: seq<int>, embedded: H)
    requires InRange(request, layers)
    ensures ValidSplit(UnitSplit(layers), layers)
    ensures Run(net, UnitSplit(layers), request, embedded) == Expected(net, layers, request, embedded)
  {
    var cuts := UnitSplit(layers);
    forall j | 0 <= j < |cuts| - 2 ensures Aligned(request, cuts[j], cuts[j + 1]) {
      NarrowIsAligned(request, cuts[j], cuts[j + 1]);
    }
    var incoming := RunEndsAtLastStage(net, cuts, layers, request, embedded);
    var stage := StageOf(cuts, |cuts| - 2);
    LastStageReturns(net, stage, request, embedded, incoming);
    SortedSorts(request);
    forall k | 0 <= k < |Sorted(request)| ensures Sorted(request)[k] <= layers {
      assert Sorted(request)[k] in Sorted(request);
    }
    UpToAll(Sorted(request), layers);
  }

  ghost predicate SameResult<H>(a: Outcome<H>, b: Outcome<H>)
  {
    (a.Failed() && b.Failed()) || a == b
  }

  ghost predicate SplitInvisible<H(!new)>(net: Network<H>, layers: nat, request: seq<int>, embedded: H)
  {
    forall cuts | ValidSplit(cuts, layers) ::
      SameResult(Run(net, cuts, request, embedded), Run(net, [0, layers], request, embedded))
  }

  /** The exact condition: no split can be told from one stage unless an in-range request repeats an index. */
  lemma SplitInvisibleIff<H(!new)>(net: Network<H>, layers: nat, request: seq<int>, embedded: H)
    ensures SplitInvisible(net, layers, request, embedded)
            <==> NoDuplicates(request) || !InRange(request, layers)
  {
    SingleStageSucceedsIff(net, layers, request, embedded);
    if !InRange(request, layers) {
      forall cuts | ValidSplit(cuts, layers) ensures Run(net, cuts, request, embedded).Failed() {
        OutOfRangeFails(net, cuts, layers, request, embedded);
      }
    } else if NoDuplicates(request) {
      PipelineReturnsExpected(net, [0, layers], layers, request, embedded);
      forall cuts | ValidSplit(cuts, layers)
        ensures SameResult(Run(net, cuts, request, embedded), Run(net, [0, layers], request, embedded))
      {
        PipelineReturnsExpected(net, cuts, layers, request, embedded);
      }
    } else {
      UnitSplitAcceptsDuplicates(net, layers, request, embedded);
      assert !SameResult(Run(net, UnitSplit(layers), request, embedded), Run(net, [0, layers], request, embedded));
    }
  }
}
